/** The task record shared by the HTTP service and the board client:
    the `Task`, `TaskCreate` and `TaskUpdate` models of backend/server.py,
    the null-dropping update dictionary and the `$set` that applies it. */
module TaskModel {

  datatype Option<+T> = None | Some(value: T)

  /** A stored task document. Coordinates are reals; `createdAt` is the
      server clock reading taken when the task was created. */
  datatype Task = Task(
    id: string,
    text: string,
    x: real,
    y: real,
    width: real,
    height: real,
    priority: string,
    color: string,
    date: Option<string>,
    completed: bool,
    createdAt: int)

  /** No two entries of a list share an id. */
  predicate DistinctIds(s: seq<Task>)
  {
    forall i, j :: 0 <= i < j < |s| ==> s[i].id != s[j].id
  }

  const DefaultX: real := 100.0
  const DefaultY: real := 100.0
  const DefaultWidth: real := 350.0
  const DefaultHeight: real := 200.0
  const DefaultPriority: string := "LOW"
  const DefaultColor: string := "red"

  /** Body of a create request. `text` is required; `None` in any other
      field means the key was absent (or, for `date`, null). */
  datatype TaskCreate = TaskCreate(
    text: string,
    x: Option<real>,
    y: Option<real>,
    priority: Option<string>,
    color: Option<string>,
    date: Option<string>)

  /** Body of an update request: every field optional, `None` for absent or null. */
  datatype TaskUpdate = TaskUpdate(
    text: Option<string>,
    x: Option<real>,
    y: Option<real>,
    width: Option<real>,
    height: Option<real>,
    priority: Option<string>,
    color: Option<string>,
    date: Option<string>,
    completed: Option<bool>)

  const NoChanges := TaskUpdate(None, None, None, None, None, None, None, None, None)

  function GetOr<T>(o: Option<T>, default: T): T
  {
    match o
    case Some(v) => v
    case None => default
  }

  /** `Task(**body.dict())` with the generated id and the clock reading:
      absent fields take the model defaults; width, height, completed, id
      and created_at are never taken from the body. */
  function NewTask(body: TaskCreate, id: string, now: int): (t: Task)
    ensures t.id == id && t.createdAt == now
    ensures t.width == DefaultWidth && t.height == DefaultHeight && !t.completed
    ensures t.text == body.text && t.date == body.date
    ensures body.x.Some? ==> t.x == body.x.value
    ensures body.x.None? ==> t.x == DefaultX
    ensures body.y.Some? ==> t.y == body.y.value
    ensures body.y.None? ==> t.y == DefaultY
    ensures body.priority.Some? ==> t.priority == body.priority.value
    ensures body.priority.None? ==> t.priority == DefaultPriority
    ensures body.color.Some? ==> t.color == body.color.value
    ensures body.color.None? ==> t.color == DefaultColor
  {
    Task(id, body.text,
         GetOr(body.x, DefaultX), GetOr(body.y, DefaultY),
         DefaultWidth, DefaultHeight,
         GetOr(body.priority, DefaultPriority), GetOr(body.color, DefaultColor),
         body.date, false, now)
  }

  /** Creating with nothing but `text` yields every documented default. */
  lemma CreateWithTextOnly(text: string, id: string, now: int)
    ensures var t := NewTask(TaskCreate(text, None, None, None, None, None), id, now);
      && t == Task(id, text, 100.0, 100.0, 350.0, 200.0, "LOW", "red", None, false, now)
  {
  }

  // ---------------------------------------------------------------------
  // Field-level view of a document, as the store sees it.

  datatype Field = Id | Text | X | Y | Width | Height | Priority | Color | Date | Completed | CreatedAt

  datatype Value = Str(s: string) | Num(r: real) | Flag(b: bool) | Time(t: int) | Null

  function OptStr(o: Option<string>): Value
  {
    match o
    case Some(s) => Str(s)
    case None => Null
  }

  function OptNum(o: Option<real>): Value
  {
    match o
    case Some(r) => Num(r)
    case None => Null
  }

  function OptFlag(o: Option<bool>): Value
  {
    match o
    case Some(b) => Flag(b)
    case None => Null
  }

  /** The value a stored document holds under field `f`. */
  function FieldOf(t: Task, f: Field): Value
  {
    match f
    case Id => Str(t.id)
    case Text => Str(t.text)
    case X => Num(t.x)
    case Y => Num(t.y)
    case Width => Num(t.width)
    case Height => Num(t.height)
    case Priority => Str(t.priority)
    case Color => Str(t.color)
    case Date => OptStr(t.date)
    case Completed => Flag(t.completed)
    case CreatedAt => Time(t.createdAt)
  }

  /** The value `task_update.dict()` holds under field `f` (`Null` for None
      and for the keys an update body does not have). */
  function RawValue(u: TaskUpdate, f: Field): Value
  {
    match f
    case Id => Null
    case Text => OptStr(u.text)
    case X => OptNum(u.x)
    case Y => OptNum(u.y)
    case Width => OptNum(u.width)
    case Height => OptNum(u.height)
    case Priority => OptStr(u.priority)
    case Color => OptStr(u.color)
    case Date => OptStr(u.date)
    case Completed => OptFlag(u.completed)
    case CreatedAt => Null
  }

  /** Whether `v` is of the kind field `f` holds in the schema; the id and
      the creation time are never set by an update. */
  predicate Fits(f: Field, v: Value)
  {
    match f
    case Id => false
    case CreatedAt => false
    case Text => v.Str?
    case Priority => v.Str?
    case Color => v.Str?
    case Date => v.Str?
    case X => v.Num?
    case Y => v.Num?
    case Width => v.Num?
    case Height => v.Num?
    case Completed => v.Flag?
  }

  /** A `$set` document that fits the task schema: no identity or creation
      time, no nulls, and every value of the field's own kind. */
  predicate WellTyped(m: map<Field, Value>)
  {
    forall f :: f in m ==> Fits(f, m[f])
  }

  /** The fields an update body has. */
  const Updatable: set<Field> := {Text, X, Y, Width, Height, Priority, Color, Date, Completed}

  /** Every value an update body supplies is of its field's kind. */
  lemma RawValueFits(u: TaskUpdate)
    ensures forall f :: RawValue(u, f) != Null ==> Fits(f, RawValue(u, f))
  {
    forall f | RawValue(u, f) != Null ensures Fits(f, RawValue(u, f)) {
      match f
      case Id =>
      case CreatedAt =>
      case Text =>
      case Priority =>
      case Color =>
      case Date =>
      case X =>
      case Y =>
      case Width =>
      case Height =>
      case Completed =>
    }
  }

  /** An update that is not empty supplies some field. */
  lemma Supplied(u: TaskUpdate)
    ensures u != NoChanges ==> exists f :: f in Updatable && RawValue(u, f) != Null
    ensures u == NoChanges ==> forall f :: RawValue(u, f) == Null
  {
    forall f ensures u == NoChanges ==> RawValue(u, f) == Null {
      match f
      case Id =>
      case CreatedAt =>
      case Text =>
      case Priority =>
      case Color =>
      case Date =>
      case X =>
      case Y =>
      case Width =>
      case Height =>
      case Completed =>
    }
    if u.text.Some? { assert RawValue(u, Text) != Null; }
    else if u.x.Some? { assert RawValue(u, X) != Null; }
    else if u.y.Some? { assert RawValue(u, Y) != Null; }
    else if u.width.Some? { assert RawValue(u, Width) != Null; }
    else if u.height.Some? { assert RawValue(u, Height) != Null; }
    else if u.priority.Some? { assert RawValue(u, Priority) != Null; }
    else if u.color.Some? { assert RawValue(u, Color) != Null; }
    else if u.date.Some? { assert RawValue(u, Date) != Null; }
    else if u.completed.Some? { assert RawValue(u, Completed) != Null; }
  }

  /** The dictionary of the fields an update supplies, with every None
      dropped. It is empty exactly when no field was supplied; falsy values
      (false, 0, "") are kept. */
  function UpdateData(u: TaskUpdate): (m: map<Field, Value>)
    ensures WellTyped(m)
    ensures Null !in m.Values
    ensures m == map[] <==> u == NoChanges
    ensures forall f :: f in m ==> m[f] == RawValue(u, f)
  {
    var m := map f | f in Updatable && RawValue(u, f) != Null :: RawValue(u, f);
    RawValueFits(u);
    Supplied(u);
    assert u == NoChanges ==> m == map[] by {
      if u == NoChanges {
        assert forall f :: f !in m;
      }
    }
    assert m == map[] ==> u == NoChanges by {
      if u != NoChanges {
        var f :| f in Updatable && RawValue(u, f) != Null;
        assert f in m;
      }
    }
    m
  }

  /** Every supplied field of an update reaches the dictionary. */
  lemma UpdateDataKeepsSupplied(u: TaskUpdate, f: Field)
    requires f != Id && f != CreatedAt
    ensures f in UpdateData(u) <==> RawValue(u, f) != Null
  {
    match f
    case Text =>
    case X =>
    case Y =>
    case Width =>
    case Height =>
    case Priority =>
    case Color =>
    case Date =>
    case Completed =>
  }

  /** `{"$set": m}` on one document. */
  function ApplySet(t: Task, m: map<Field, Value>): Task
    requires WellTyped(m)
  {
    Task(
      t.id,
      if Text in m then m[Text].s else t.text,
      if X in m then m[X].r else t.x,
      if Y in m then m[Y].r else t.y,
      if Width in m then m[Width].r else t.width,
      if Height in m then m[Height].r else t.height,
      if Priority in m then m[Priority].s else t.priority,
      if Color in m then m[Color].s else t.color,
      if Date in m then Some(m[Date].s) else t.date,
      if Completed in m then m[Completed].b else t.completed,
      t.createdAt)
  }

  /** `$set` is exact: each field named in `m` takes the value given there
      and every other field, the id and creation time included, keeps its
      value. */
  lemma ApplySetFieldwise(t: Task, m: map<Field, Value>)
    requires WellTyped(m)
    ensures forall f :: FieldOf(ApplySet(t, m), f) == if f in m then m[f] else FieldOf(t, f)
  {
    forall f ensures FieldOf(ApplySet(t, m), f) == if f in m then m[f] else FieldOf(t, f) {
      ApplySetAt(t, m, f);
    }
  }

  lemma ApplySetAt(t: Task, m: map<Field, Value>, f: Field)
    requires WellTyped(m)
    ensures FieldOf(ApplySet(t, m), f) == if f in m then m[f] else FieldOf(t, f)
  {
    var r := ApplySet(t, m);
    match f
    case Id =>
    case Text => assert r.text == if Text in m then m[Text].s else t.text;
    case X => assert r.x == if X in m then m[X].r else t.x;
    case Y => assert r.y == if Y in m then m[Y].r else t.y;
    case Width => assert r.width == if Width in m then m[Width].r else t.width;
    case Height => assert r.height == if Height in m then m[Height].r else t.height;
    case Priority => assert r.priority == if Priority in m then m[Priority].s else t.priority;
    case Color => assert r.color == if Color in m then m[Color].s else t.color;
    case Date => assert r.date == if Date in m then Some(m[Date].s) else t.date;
    case Completed => assert r.completed == if Completed in m then m[Completed].b else t.completed;
    case CreatedAt =>
  }

  /** Two documents that agree on every field are the same document. */
  lemma FieldsDetermineTask(a: Task, b: Task)
    requires forall f :: FieldOf(a, f) == FieldOf(b, f)
    ensures a == b
  {
    assert FieldOf(a, Id) == FieldOf(b, Id);
    assert FieldOf(a, Text) == FieldOf(b, Text);
    assert FieldOf(a, X) == FieldOf(b, X);
    assert FieldOf(a, Y) == FieldOf(b, Y);
    assert FieldOf(a, Width) == FieldOf(b, Width);
    assert FieldOf(a, Height) == FieldOf(b, Height);
    assert FieldOf(a, Priority) == FieldOf(b, Priority);
    assert FieldOf(a, Color) == FieldOf(b, Color);
    assert FieldOf(a, Date) == FieldOf(b, Date);
    assert FieldOf(a, Completed) == FieldOf(b, Completed);
    assert FieldOf(a, CreatedAt) == FieldOf(b, CreatedAt);
  }

  /** An update never touches the id or the creation time, and never
      clears a date: nulls are dropped, so a stored date stays a date. */
  lemma UpdateKeepsIdentity(t: Task, u: TaskUpdate)
    ensures ApplySet(t, UpdateData(u)).id == t.id
    ensures ApplySet(t, UpdateData(u)).createdAt == t.createdAt
    ensures t.date.Some? ==> ApplySet(t, UpdateData(u)).date.Some?
  {
    var m := UpdateData(u);
    var r := ApplySet(t, m);
    ApplySetAt(t, m, Id);
    ApplySetAt(t, m, CreatedAt);
    ApplySetAt(t, m, Date);
    assert Date in m ==> Fits(Date, m[Date]);
  }

  /** `completed: false` is applied, not dropped: an update can re-open a
      completed task. */
  lemma UpdateCanReopen(t: Task)
    requires t.completed
    ensures !ApplySet(t, UpdateData(NoChanges.(completed := Some(false)))).completed
  {
    var u := NoChanges.(completed := Some(false));
    var r := ApplySet(t, UpdateData(u));
    ApplySetFieldwise(t, UpdateData(u));
    assert Completed in UpdateData(u) by { UpdateDataKeepsSupplied(u, Completed); }
    assert FieldOf(r, Completed) == Flag(false);
  }
}
