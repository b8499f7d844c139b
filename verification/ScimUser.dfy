// The user record a host stores, and the flat delta a PATCH is compiled to.
module ScimUser {
  import opened Wrappers
  import opened Text

  datatype MultiValue = MultiValue(value: string, kind: Option<string>, primary: Option<bool>)

  // An extension value: text, or a manager reference.
  datatype Extra = Text(s: string) | Manager(value: Option<string>, displayName: Option<string>)

  type Name = map<string, string>
  type Enterprise = map<string, Extra>

  datatype User = User(
    id: string, externalId: Option<string>, userName: string, active: bool, name: Option<Name>,
    displayName: Option<string>, emails: Option<seq<MultiValue>>, phoneNumbers: Option<seq<MultiValue>>,
    enterprise: Option<Enterprise>)

  // Absent key, `null`, and a value.
  datatype Change<T> = Leave | Clear | Set(value: T)

  datatype Delta = Delta(
    externalId: Change<string>, userName: Option<string>, active: Option<bool>, name: Change<Name>,
    displayName: Change<string>, emails: Change<seq<MultiValue>>, phoneNumbers: Change<seq<MultiValue>>,
    enterprise: Change<Enterprise>)

  const NO_CHANGE := Delta(Leave, None, None, Leave, Leave, Leave, Leave, Leave)

  // What the host does with a delta: present means set, null means clear, absent means leave.
  function Resolve<T>(c: Change<T>, before: Option<T>): Option<T> {
    match c
    case Leave => before
    case Clear => None
    case Set(v) => Some(v)
  }

  function Apply(d: Delta, u: User): User {
    User(u.id, Resolve(d.externalId, u.externalId),
         if d.userName.Some? then d.userName.value else u.userName,
         if d.active.Some? then d.active.value else u.active,
         Resolve(d.name, u.name), Resolve(d.displayName, u.displayName), Resolve(d.emails, u.emails),
         Resolve(d.phoneNumbers, u.phoneNumbers), Resolve(d.enterprise, u.enterprise))
  }

  datatype Key = ExternalId | UserName | Active | Name | DisplayName | Emails | PhoneNumbers | Enterprise

  // The keys a delta carries.
  function Touched(d: Delta): set<Key> {
    (if d.externalId.Leave? then {} else {ExternalId})
    + (if d.userName.None? then {} else {UserName})
    + (if d.active.None? then {} else {Active})
    + (if d.name.Leave? then {} else {Key.Name})
    + (if d.displayName.Leave? then {} else {DisplayName})
    + (if d.emails.Leave? then {} else {Emails})
    + (if d.phoneNumbers.Leave? then {} else {PhoneNumbers})
    + (if d.enterprise.Leave? then {} else {Key.Enterprise})
  }

  // ---------- Multi-valued attributes ----------

  predicate HasKind(e: MultiValue, kind: string) {
    Lower(if e.kind.Some? then e.kind.value else "") == Lower(kind)
  }

  // The first entry of this kind, or the length.
  function FindKind(list: seq<MultiValue>, kind: string): (i: nat)
    ensures i <= |list| && (i < |list| ==> HasKind(list[i], kind))
    ensures forall j | 0 <= j < i :: !HasKind(list[j], kind)
  {
    if list == [] || HasKind(list[0], kind) then 0 else 1 + FindKind(list[1..], kind)
  }

  function Untyped(list: seq<MultiValue>): nat {
    if list == [] then 0 else (if list[0].kind.None? then 1 else 0) + Untyped(list[1..])
  }

  function FirstUntyped(list: seq<MultiValue>): (i: nat)
    ensures i <= |list| && (i < |list| ==> list[i].kind.None?)
    ensures i < |list| <==> Untyped(list) > 0
    ensures forall j | 0 <= j < i :: list[j].kind.Some?
  {
    if list == [] || list[0].kind.None? then 0 else 1 + FirstUntyped(list[1..])
  }

  // Overwrite the first entry of this kind; failing that, adopt the only untyped
  // entry; failing that, append.
  function UpsertByType(list: seq<MultiValue>, kind: string, value: string): (r: seq<MultiValue>)
    ensures |list| <= |r| <= |list| + 1 && r != []
  {
    var i := FindKind(list, kind);
    if i < |list| then list[i := list[i].(value := value)]
    else if Untyped(list) == 1 then
      var u := FirstUntyped(list);
      list[u := list[u].(value := value, kind := Some(kind))]
    else list + [MultiValue(value, Some(kind), None)]
  }

  function WithoutKind(list: seq<MultiValue>, kind: string): (r: seq<MultiValue>)
    ensures forall e :: e in r <==> e in list && !HasKind(e, kind)
  {
    if list == [] then []
    else (if HasKind(list[0], kind) then [] else [list[0]]) + WithoutKind(list[1..], kind)
  }
}
