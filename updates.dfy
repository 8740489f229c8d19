/** Partial updates. A handler takes the fields that were sent in the payload
    (`payload.dict(exclude_unset=True)`) and writes them onto the stored row
    one `setattr` at a time. Each record type has its assignment datatype, the
    list of assignments a payload yields, and a field-by-field description of
    the patched row that the assignment loop is proved to produce. */
module Updates {
  import opened Outcomes
  import opened Models
  import opened Schemas

  /** `items` written onto `row` from left to right. */
  function AssignAll<R, A>(row: R, items: seq<A>, assign: (R, A) -> R): R
    decreases |items|
  {
    if items == [] then row else AssignAll(assign(row, items[0]), items[1..], assign)
  }

  /** The `setattr` loop. */
  method SetAttrs<R, A>(row: R, items: seq<A>, assign: (R, A) -> R) returns (v: R)
    ensures v == AssignAll(row, items, assign)
  {
    v := row;
    for i := 0 to |items|
      invariant AssignAll(v, items[i..], assign) == AssignAll(row, items, assign)
    {
      assert items[i..][1..] == items[i + 1..];
      v := assign(v, items[i]);
    }
  }

  /** The value a field ends with: the sent value, or the old one if the field
      was not sent. Only nullable columns may receive `Null`. */
  function Written<T>(f: Field<T>, current: T): T
    requires !f.Null?
  {
    if f.Given? then f.value else current
  }

  function WrittenNullable<T>(f: Field<T>, current: Option<T>): Option<T> {
    match f
    case Unset => current
    case Null => None
    case Given(v) => Some(v)
  }

  // ---- users ----

  datatype UserAssignment = SetName(name: string) | SetEmail(email: string) | SetAffiliation(affiliation: Option<string>)

  /** A `null` sent for `name` or `email`, which are NOT NULL columns. */
  predicate NullIntoRequiredUserField(p: UserUpdate) {
    p.name.Null? || p.email.Null?
  }

  /** The fields sent, in declaration order. */
  function UserItems(p: UserUpdate): (items: seq<UserAssignment>)
    requires !NullIntoRequiredUserField(p)
  {
    (if p.name.Given? then [SetName(p.name.value)] else [])
    + (if p.email.Given? then [SetEmail(p.email.value)] else [])
    + (match p.affiliation
       case Unset => []
       case Null => [SetAffiliation(None)]
       case Given(a) => [SetAffiliation(Some(a))])
  }

  function AssignUser(u: User, a: UserAssignment): User {
    match a
    case SetName(n) => u.(name := n)
    case SetEmail(e) => u.(email := e)
    case SetAffiliation(f) => u.(affiliation := f)
  }

  /** The user after the update: each sent field takes its new value, every
      other field (the id and the role among them) keeps its old one. */
  function PatchedUser(u: User, p: UserUpdate): (v: User)
    requires !NullIntoRequiredUserField(p)
    ensures v.id == u.id && v.role == u.role
    ensures p == UserUpdate(Unset, Unset, Unset) ==> v == u
  {
    User(u.id, Written(p.name, u.name), Written(p.email, u.email),
         WrittenNullable(p.affiliation, u.affiliation), u.role)
  }

  /** The `setattr` loop over the sent fields produces the patched user. */
  lemma {:induction false} UserItemsPatch(u: User, p: UserUpdate)
    requires !NullIntoRequiredUserField(p)
    ensures AssignAll(u, UserItems(p), AssignUser) == PatchedUser(u, p)
  {
    var n := if p.name.Given? then [SetName(p.name.value)] else [];
    var e := if p.email.Given? then [SetEmail(p.email.value)] else [];
    var f := match p.affiliation
      case Unset => []
      case Null => [SetAffiliation(None)]
      case Given(a) => [SetAffiliation(Some(a))];
    AssignAllAppend(u, n, e + f, AssignUser);
    var u1 := AssignAll(u, n, AssignUser);
    AssignAllAppend(u1, e, f, AssignUser);
    var u2 := AssignAll(u1, e, AssignUser);
    assert n + (e + f) == UserItems(p);
    assert u1 == u.(name := Written(p.name, u.name));
    assert u2 == u1.(email := Written(p.email, u.email));
  }

  /** Writing `xs + ys` writes `xs`, then `ys`. */
  lemma {:induction false} AssignAllAppend<R, A>(row: R, xs: seq<A>, ys: seq<A>, assign: (R, A) -> R)
    ensures AssignAll(row, xs + ys, assign) == AssignAll(AssignAll(row, xs, assign), ys, assign)
    decreases |xs|
  {
    if xs != [] {
      assert (xs + ys)[1..] == xs[1..] + ys;
      AssignAllAppend(assign(row, xs[0]), xs[1..], ys, assign);
    } else {
      assert xs + ys == ys;
    }
  }

  // ---- projects ----

  datatype ProjectAssignment =
    | SetTitle(title: string)
    | SetDescription(description: Option<string>)
    | SetPiId(piId: int)
    | SetManagerId(managerId: int)

  /** A `null` sent for `title`, a NOT NULL column. (A `null` sent for
      `pi_id` or `manager_id` is refused earlier, by the role guard.) */
  predicate NullIntoRequiredProjectField(p: ProjectUpdate) {
    p.title.Null? || p.piId.Null? || p.managerId.Null?
  }

  /** The fields sent, in declaration order. */
  function ProjectItems(p: ProjectUpdate): (items: seq<ProjectAssignment>)
    requires !NullIntoRequiredProjectField(p)
  {
    (if p.title.Given? then [SetTitle(p.title.value)] else [])
    + (match p.description
       case Unset => []
       case Null => [SetDescription(None)]
       case Given(d) => [SetDescription(Some(d))])
    + (if p.piId.Given? then [SetPiId(p.piId.value)] else [])
    + (if p.managerId.Given? then [SetManagerId(p.managerId.value)] else [])
  }

  function AssignProject(pr: Project, a: ProjectAssignment): Project {
    match a
    case SetTitle(t) => pr.(title := t)
    case SetDescription(d) => pr.(description := d)
    case SetPiId(i) => pr.(piId := i)
    case SetManagerId(m) => pr.(managerId := m)
  }

  /** The project after the update: each sent field takes its new value, every
      other field (and the id) keeps its old one. */
  function PatchedProject(pr: Project, p: ProjectUpdate): (v: Project)
    requires !NullIntoRequiredProjectField(p)
    ensures v.id == pr.id
    ensures p == ProjectUpdate(Unset, Unset, Unset, Unset) ==> v == pr
  {
    Project(pr.id, Written(p.title, pr.title), WrittenNullable(p.description, pr.description),
            Written(p.piId, pr.piId), Written(p.managerId, pr.managerId))
  }

  /** The `setattr` loop over the sent fields produces the patched project. */
  lemma {:induction false} ProjectItemsPatch(pr: Project, p: ProjectUpdate)
    requires !NullIntoRequiredProjectField(p)
    ensures AssignAll(pr, ProjectItems(p), AssignProject) == PatchedProject(pr, p)
  {
    var t := if p.title.Given? then [SetTitle(p.title.value)] else [];
    var d := match p.description
      case Unset => []
      case Null => [SetDescription(None)]
      case Given(x) => [SetDescription(Some(x))];
    var i := if p.piId.Given? then [SetPiId(p.piId.value)] else [];
    var m := if p.managerId.Given? then [SetManagerId(p.managerId.value)] else [];
    assert ProjectItems(p) == t + (d + (i + m));
    AssignAllAppend(pr, t, d + (i + m), AssignProject);
    var p1 := AssignAll(pr, t, AssignProject);
    AssignAllAppend(p1, d, i + m, AssignProject);
    var p2 := AssignAll(p1, d, AssignProject);
    AssignAllAppend(p2, i, m, AssignProject);
    var p3 := AssignAll(p2, i, AssignProject);
    assert p1 == pr.(title := Written(p.title, pr.title));
    assert p2 == p1.(description := WrittenNullable(p.description, pr.description));
    assert p3 == p2.(piId := Written(p.piId, pr.piId));
  }
}
