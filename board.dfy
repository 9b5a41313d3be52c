/** The board client of frontend/src/App.js: the task list it holds in React
    state, the optimistic list updates it makes before the server answers,
    and the focus-mode ranking that decides which cards stay sharp. */
module Board {
  import opened TaskModel

  /** A particle burst drawn where a completed card was. */
  datatype Explosion = Explosion(id: int, x: real, y: real)

  /** What the input bar hands to `createTask` (and posts as the body). */
  datatype TaskData = TaskData(text: string, priority: string, color: string, date: Option<string>, x: real, y: real)

  const NewCardWidth: real := 350.0
  const NewCardHeight: real := 200.0

  /** Number of cards focus mode keeps sharp. */
  const FocusSize := 3

  // ---------------------------------------------------------------------
  // Creating

  /** `{ ...taskData, id, width: 350, height: 200, completed: false, created_at }`. */
  function TempTask(d: TaskData, tempId: string, now: int): Task
  {
    Task(tempId, d.text, d.x, d.y, NewCardWidth, NewCardHeight, d.priority, d.color, d.date, false, now)
  }

  /** The same payload, read as the server's create body: every field present. */
  function AsCreateBody(d: TaskData): TaskCreate
  {
    TaskCreate(d.text, Some(d.x), Some(d.y), Some(d.priority), Some(d.color), d.date)
  }

  /** The optimistic card is the record the server will create, except for
      the id and the creation time. */
  lemma TempTaskMatchesServer(d: TaskData, tempId: string, now: int, serverId: string, serverNow: int)
    ensures TempTask(d, tempId, now) == NewTask(AsCreateBody(d), serverId, serverNow).(id := tempId, createdAt := now)
  {
  }

  /** `tasks.map(task => task.id === id ? record : task)`. */
  function ReplaceById(tasks: seq<Task>, id: string, record: Task): (r: seq<Task>)
    ensures |r| == |tasks|
    ensures forall i :: 0 <= i < |tasks| ==> r[i] == if tasks[i].id == id then record else tasks[i]
  {
    if tasks == [] then []
    else [if tasks[0].id == id then record else tasks[0]] + ReplaceById(tasks[1..], id, record)
  }

  /** When the temporary id is new to the list, settling the create puts
      the server record exactly where the temporary card was, in front, and
      leaves the rest of the list as it was before the create. */
  lemma SettleReplacesTempInPlace(tasks: seq<Task>, temp: Task, record: Task)
    requires forall i :: 0 <= i < |tasks| ==> tasks[i].id != temp.id
    ensures ReplaceById([temp] + tasks, temp.id, record) == [record] + tasks
  {
    var r := ReplaceById([temp] + tasks, temp.id, record);
    assert forall i :: 1 <= i < |r| ==> r[i] == tasks[i - 1];
  }

  // ---------------------------------------------------------------------
  // Updating

  /** `{ ...task, ...updates }`: every key present in `updates` wins. */
  function Spread(t: Task, u: TaskUpdate): Task
  {
    Task(t.id,
         GetOr(u.text, t.text),
         GetOr(u.x, t.x), GetOr(u.y, t.y),
         GetOr(u.width, t.width), GetOr(u.height, t.height),
         GetOr(u.priority, t.priority), GetOr(u.color, t.color),
         if u.date.Some? then u.date else t.date,
         GetOr(u.completed, t.completed),
         t.createdAt)
  }

  /** The optimistic merge shows what the server will store for the same
      update: the spread and the null-dropping `$set` agree. */
  lemma SpreadMatchesServer(t: Task, u: TaskUpdate)
    ensures Spread(t, u) == ApplySet(t, UpdateData(u))
  {
    forall f ensures FieldOf(Spread(t, u), f) == FieldOf(ApplySet(t, UpdateData(u)), f) {
      SpreadAt(t, u, f);
    }
    FieldsDetermineTask(Spread(t, u), ApplySet(t, UpdateData(u)));
  }

  lemma SpreadAt(t: Task, u: TaskUpdate, f: Field)
    ensures FieldOf(Spread(t, u), f) == FieldOf(ApplySet(t, UpdateData(u)), f)
  {
    ApplySetAt(t, UpdateData(u), f);
    if f != Id && f != CreatedAt {
      UpdateDataKeepsSupplied(u, f);
    }
    match f
    case Id =>
    case CreatedAt =>
    case Text =>
    case X =>
    case Y =>
    case Width =>
    case Height =>
    case Priority =>
    case Color =>
    case Date =>
    case Completed =>
  }

  /** `tasks.map(task => task.id === taskId ? { ...task, ...updates } : task)`. */
  function UpdateInList(tasks: seq<Task>, id: string, u: TaskUpdate): (r: seq<Task>)
    ensures |r| == |tasks|
    ensures forall i :: 0 <= i < |tasks| ==> r[i] == if tasks[i].id == id then Spread(tasks[i], u) else tasks[i]
  {
    if tasks == [] then []
    else [if tasks[0].id == id then Spread(tasks[0], u) else tasks[0]] + UpdateInList(tasks[1..], id, u)
  }

  // ---------------------------------------------------------------------
  // Deleting and completing

  /** `tasks.filter(task => task.id !== taskId)`. */
  function WithoutId(tasks: seq<Task>, id: string): (r: seq<Task>)
    ensures |r| <= |tasks|
    ensures forall t :: t in r <==> t in tasks && t.id != id
    ensures (forall i :: 0 <= i < |tasks| ==> tasks[i].id != id) ==> r == tasks
  {
    if tasks == [] then []
    else if tasks[0].id == id then WithoutId(tasks[1..], id)
    else [tasks[0]] + WithoutId(tasks[1..], id)
  }

  /** Filtering distributes over concatenation, so the entries that stay
      keep their relative order. */
  lemma {:induction false} WithoutIdConcat(a: seq<Task>, b: seq<Task>, id: string)
    ensures WithoutId(a + b, id) == WithoutId(a, id) + WithoutId(b, id)
  {
    if a == [] {
      assert a + b == b;
    } else {
      assert (a + b)[1..] == a[1..] + b;
      WithoutIdConcat(a[1..], b, id);
    }
  }

  /** The index `tasks.find(t => t.id === taskId)` stops at: the first entry
      with that id, or `|tasks|` when there is none. */
  function FindIndex(tasks: seq<Task>, id: string): (k: nat)
    ensures k <= |tasks|
    ensures forall j :: 0 <= j < k ==> tasks[j].id != id
    ensures k < |tasks| ==> tasks[k].id == id
  {
    if tasks == [] then 0
    else if tasks[0].id == id then 0
    else 1 + FindIndex(tasks[1..], id)
  }

  /** The burst for a completed card, at the card's centre. */
  function BurstAt(explosionId: int, t: Task): (e: Explosion)
    ensures e.id == explosionId
    ensures e.x - t.x == (t.x + t.width) - e.x
    ensures e.y - t.y == (t.y + t.height) - e.y
  {
    Explosion(explosionId, t.x + t.width / 2.0, t.y + t.height / 2.0)
  }

  /** `explosions.filter(exp => exp.id !== explosionId)`. */
  function WithoutExplosion(explosions: seq<Explosion>, explosionId: int): (r: seq<Explosion>)
    ensures |r| <= |explosions|
    ensures forall e :: e in r <==> e in explosions && e.id != explosionId
  {
    if explosions == [] then []
    else if explosions[0].id == explosionId then WithoutExplosion(explosions[1..], explosionId)
    else [explosions[0]] + WithoutExplosion(explosions[1..], explosionId)
  }

  /** The burst filter distributes over concatenation, so the bursts that
      stay keep their relative order and their number, repeated ids
      included. */
  lemma {:induction false} WithoutExplosionConcat(a: seq<Explosion>, b: seq<Explosion>, explosionId: int)
    ensures WithoutExplosion(a + b, explosionId) == WithoutExplosion(a, explosionId) + WithoutExplosion(b, explosionId)
  {
    if a == [] {
      assert a + b == b;
    } else {
      assert (a + b)[1..] == a[1..] + b;
      WithoutExplosionConcat(a[1..], b, explosionId);
    }
  }

  // ---------------------------------------------------------------------
  // Focus-mode ranking

  /** The comparator of `importantTasks`: negative when `a` goes first. */
  function Compare(a: Task, b: Task): int
  {
    if a.priority == "HIGH" && b.priority == "LOW" then -1
    else if a.priority == "LOW" && b.priority == "HIGH" then 1
    else b.createdAt - a.createdAt
  }

  predicate Ranked(t: Task)
  {
    t.priority == "LOW" || t.priority == "HIGH"
  }

  predicate AllRanked(s: seq<Task>)
  {
    forall t :: t in s ==> Ranked(t)
  }

  /** Sorted as the comparator asks: no entry should come after a later one. */
  predicate RankSorted(s: seq<Task>)
  {
    forall i, j :: 0 <= i < j < |s| ==> Compare(s[i], s[j]) <= 0
  }

  lemma CompareAntisymmetric(a: Task, b: Task)
    ensures Compare(a, b) == -Compare(b, a)
  {
  }

  /** On LOW/HIGH priorities the comparator is a total preorder. */
  lemma CompareTransitive(a: Task, b: Task, c: Task)
    requires Ranked(a) && Ranked(b) && Ranked(c)
    requires Compare(a, b) <= 0 && Compare(b, c) <= 0
    ensures Compare(a, c) <= 0
  {
  }

  /** With any other priority string the comparator is not transitive, so
      the order `sort` produces is left to the engine; the ranking lemmas
      below therefore assume LOW/HIGH priorities. */
  lemma CompareCycleOffEnumeration()
    ensures var a := Task("a", "", 0.0, 0.0, 0.0, 0.0, "HIGH", "", None, false, 1);
            var b := Task("b", "", 0.0, 0.0, 0.0, 0.0, "MEDIUM", "", None, false, 2);
            var c := Task("c", "", 0.0, 0.0, 0.0, 0.0, "LOW", "", None, false, 3);
            Compare(a, c) < 0 && Compare(c, b) < 0 && Compare(b, a) < 0
  {
  }

  /** One step of a stable insertion sort: `t` goes before the first entry
      that the comparator puts after it. */
  function InsertRanked(s: seq<Task>, t: Task): (r: seq<Task>)
    ensures multiset(r) == multiset(s) + multiset{t}
  {
    if s == [] then [t]
    else if Compare(s[0], t) > 0 then [t] + s
    else
      assert s == [s[0]] + s[1..];
      [s[0]] + InsertRanked(s[1..], t)
  }

  lemma {:induction false} InsertRankedSorted(s: seq<Task>, t: Task)
    requires AllRanked(s) && Ranked(t) && RankSorted(s)
    ensures RankSorted(InsertRanked(s, t))
  {
    if s == [] {
    } else if Compare(s[0], t) > 0 {
      var r := [t] + s;
      CompareAntisymmetric(s[0], t);
      forall j | 1 <= j < |r| ensures Compare(t, r[j]) <= 0 {
        if j > 1 {
          CompareTransitive(t, s[0], s[j - 1]);
        }
      }
    } else {
      var rest := InsertRanked(s[1..], t);
      InsertRankedSorted(s[1..], t);
      var r := [s[0]] + rest;
      forall j | 0 <= j < |rest| ensures Compare(s[0], rest[j]) <= 0 {
        assert rest[j] in multiset(rest);
        if rest[j] != t {
          assert rest[j] in multiset(s[1..]);
          var i :| 1 <= i < |s| && s[i] == rest[j];
        }
      }
    }
  }

  /** `tasks.sort(compare)`, as a stable insertion sort. */
  function SortByRank(s: seq<Task>): (r: seq<Task>)
    ensures multiset(r) == multiset(s)
  {
    if s == [] then []
    else
      assert s == s[..|s| - 1] + [s[|s| - 1]];
      InsertRanked(SortByRank(s[..|s| - 1]), s[|s| - 1])
  }

  /** Whether `t` has the sort key (priority, creation time); the
      comparator looks at nothing else. */
  predicate HasKey(t: Task, priority: string, createdAt: int)
  {
    t.priority == priority && t.createdAt == createdAt
  }

  /** The entries of `s` with a given sort key, in their order in `s`. */
  function WithKey(s: seq<Task>, priority: string, createdAt: int): seq<Task>
  {
    if s == [] then []
    else (if HasKey(s[0], priority, createdAt) then [s[0]] else []) + WithKey(s[1..], priority, createdAt)
  }

  /** Inserting into a sorted list puts `t` after every entry with its key. */
  lemma {:induction false} InsertRankedStable(s: seq<Task>, t: Task, priority: string, createdAt: int)
    requires RankSorted(s)
    ensures WithKey(InsertRanked(s, t), priority, createdAt)
         == WithKey(s, priority, createdAt) + WithKey([t], priority, createdAt)
  {
    if s == [] {
    } else if Compare(s[0], t) > 0 {
      InsertedInFront(s, t, priority, createdAt);
    } else {
      RankSortedTail(s);
      InsertRankedStable(s[1..], t, priority, createdAt);
      var rest := InsertRanked(s[1..], t);
      assert InsertRanked(s, t) == [s[0]] + rest;
      assert s == [s[0]] + s[1..];
      ConsKeepsStable(s[0], rest, s[1..], t, priority, createdAt);
    }
  }

  lemma InsertedInFront(s: seq<Task>, t: Task, priority: string, createdAt: int)
    requires RankSorted(s) && s != [] && Compare(s[0], t) > 0
    ensures WithKey(InsertRanked(s, t), priority, createdAt)
         == WithKey(s, priority, createdAt) + WithKey([t], priority, createdAt)
  {
    assert InsertRanked(s, t) == [t] + s;
    assert ([t] + s)[0] == t && ([t] + s)[1..] == s;
    assert [t][1..] == [];
    if HasKey(t, priority, createdAt) {
      NoKeyBehindGreater(s, t, priority, createdAt);
    }
  }

  lemma ConsKeepsStable(x: Task, rest: seq<Task>, tail: seq<Task>, t: Task, priority: string, createdAt: int)
    requires WithKey(rest, priority, createdAt) == WithKey(tail, priority, createdAt) + WithKey([t], priority, createdAt)
    ensures WithKey([x] + rest, priority, createdAt)
         == WithKey([x] + tail, priority, createdAt) + WithKey([t], priority, createdAt)
  {
    assert ([x] + rest)[1..] == rest;
    assert ([x] + tail)[1..] == tail;
  }

  /** In a sorted list whose head the comparator puts after `t`, no entry
      shares `t`'s key: the comparator would treat it as `t`. */
  lemma NoKeyBehindGreater(s: seq<Task>, t: Task, priority: string, createdAt: int)
    requires RankSorted(s) && s != [] && Compare(s[0], t) > 0 && HasKey(t, priority, createdAt)
    ensures WithKey(s, priority, createdAt) == []
  {
    forall j | 0 <= j < |s| ensures !HasKey(s[j], priority, createdAt) {
      if j > 0 {
        assert Compare(s[0], s[j]) <= 0;
      }
    }
    WithKeyNone(s, priority, createdAt);
  }

  lemma {:induction false} WithKeyNone(s: seq<Task>, priority: string, createdAt: int)
    requires forall j :: 0 <= j < |s| ==> !HasKey(s[j], priority, createdAt)
    ensures WithKey(s, priority, createdAt) == []
  {
    if s != [] {
      WithKeyNone(s[1..], priority, createdAt);
    }
  }

  lemma RankSortedTail(s: seq<Task>)
    requires RankSorted(s) && s != []
    ensures RankSorted(s[1..])
  {
    forall i, j | 0 <= i < j < |s| - 1 ensures Compare(s[1..][i], s[1..][j]) <= 0 {
      assert s[1..][i] == s[i + 1] && s[1..][j] == s[j + 1];
    }
  }

  lemma AllRankedInit(s: seq<Task>)
    requires AllRanked(s) && s != []
    ensures AllRanked(s[..|s| - 1])
  {
    forall t | t in s[..|s| - 1] ensures Ranked(t) {
      assert t in s;
    }
  }

  /** The sort is stable, as `Array.prototype.sort` is: entries that tie on
      priority and creation time keep their input order. With the
      permutation of `SortByRank` and the order of `SortByRankSorted`, this
      fixes the result completely. */
  lemma {:induction false} SortByRankStable(s: seq<Task>, priority: string, createdAt: int)
    requires AllRanked(s)
    ensures WithKey(SortByRank(s), priority, createdAt) == WithKey(s, priority, createdAt)
  {
    if s != [] {
      AllRankedInit(s);
      SortByRankStable(s[..|s| - 1], priority, createdAt);
      InsertIntoSortedStable(s[..|s| - 1], s[|s| - 1], priority, createdAt);
      SnocKeepsStable(s, SortByRank(s[..|s| - 1]), SortByRank(s), priority, createdAt);
    }
  }

  lemma InsertIntoSortedStable(init: seq<Task>, last: Task, priority: string, createdAt: int)
    requires AllRanked(init)
    ensures WithKey(InsertRanked(SortByRank(init), last), priority, createdAt)
         == WithKey(SortByRank(init), priority, createdAt) + WithKey([last], priority, createdAt)
  {
    SortByRankSorted(init);
    InsertRankedStable(SortByRank(init), last, priority, createdAt);
  }

  /** The last step of the induction: the entries of `s` with the key are
      those of all but its last entry, then the last entry if it has it. */
  lemma SnocKeepsStable(s: seq<Task>, sorted: seq<Task>, r: seq<Task>, priority: string, createdAt: int)
    requires s != []
    requires WithKey(sorted, priority, createdAt) == WithKey(s[..|s| - 1], priority, createdAt)
    requires WithKey(r, priority, createdAt) == WithKey(sorted, priority, createdAt) + WithKey([s[|s| - 1]], priority, createdAt)
    ensures WithKey(r, priority, createdAt) == WithKey(s, priority, createdAt)
  {
    WithKeySnoc(s, priority, createdAt);
  }

  lemma {:induction false} WithKeySnoc(s: seq<Task>, priority: string, createdAt: int)
    requires s != []
    ensures WithKey(s, priority, createdAt) == WithKey(s[..|s| - 1], priority, createdAt) + WithKey([s[|s| - 1]], priority, createdAt)
  {
    if |s| == 1 {
      assert s == [s[0]] && s[..0] == [];
    } else {
      WithKeySnoc(s[1..], priority, createdAt);
      assert s[1..][..|s| - 2] == s[..|s| - 1][1..];
      assert s[1..][|s| - 2] == s[|s| - 1];
    }
  }

  /** The sort leaves the list ordered by the comparator whenever every
      priority is LOW or HIGH. */
  lemma {:induction false} SortByRankSorted(s: seq<Task>)
    requires AllRanked(s)
    ensures RankSorted(SortByRank(s))
  {
    if s != [] {
      var init := s[..|s| - 1];
      var sorted := SortByRank(init);
      assert AllRanked(init) by {
        forall t | t in init ensures Ranked(t) {
          assert t in s;
        }
      }
      SortByRankSorted(init);
      assert AllRanked(sorted) by {
        forall t | t in sorted ensures Ranked(t) {
          assert t in multiset(sorted);
          assert t in init;
        }
      }
      InsertRankedSorted(sorted, s[|s| - 1]);
    }
  }

  /** The ranked order: every HIGH card before every LOW card, newest first
      among equal priorities, and nothing left outside the top that ranks
      strictly above a card inside it. */
  lemma RankOrder(s: seq<Task>)
    requires AllRanked(s)
    ensures var r := SortByRank(s);
      && (forall i, j :: 0 <= i < j < |r| && r[j].priority == "HIGH" ==> r[i].priority == "HIGH")
      && (forall i, j :: 0 <= i < j < |r| && r[i].priority == r[j].priority ==> r[i].createdAt >= r[j].createdAt)
      && (forall i, j :: 0 <= i < FocusSize <= j < |r| ==> Compare(r[i], r[j]) <= 0)
  {
    var r := SortByRank(s);
    SortByRankSorted(s);
    forall i | 0 <= i < |r| ensures Ranked(r[i]) {
      assert r[i] in multiset(r);
      assert r[i] in s;
    }
    forall i, j | 0 <= i < j < |r| && r[j].priority == "HIGH" ensures r[i].priority == "HIGH" {
      assert Compare(r[i], r[j]) <= 0;
    }
    forall i, j | 0 <= i < j < |r| && r[i].priority == r[j].priority ensures r[i].createdAt >= r[j].createdAt {
      assert Compare(r[i], r[j]) <= 0;
    }
  }

  /** `.map(t => t.id)`. */
  function Ids(s: seq<Task>): (r: seq<string>)
    ensures |r| == |s|
    ensures forall i :: 0 <= i < |s| ==> r[i] == s[i].id
  {
    if s == [] then [] else [s[0].id] + Ids(s[1..])
  }

  /** `.slice(0, 3).map(t => t.id)` of the ranked list. */
  function TopIds(ranked: seq<Task>): (r: seq<string>)
    ensures |r| == if |ranked| < FocusSize then |ranked| else FocusSize
    ensures forall i :: 0 <= i < |r| ==> r[i] == ranked[i].id
  {
    Ids(ranked[..if |ranked| < FocusSize then |ranked| else FocusSize])
  }

  /** A card is blurred in focus mode unless its id is among the top ones. */
  predicate IsBlurred(focusMode: bool, important: seq<string>, t: Task)
  {
    focusMode && t.id !in important
  }

  /** The cards left sharp. */
  function Sharp(focusMode: bool, important: seq<string>, tasks: seq<Task>): (r: seq<Task>)
    ensures forall t :: t in r <==> t in tasks && !IsBlurred(focusMode, important, t)
  {
    if tasks == [] then []
    else if IsBlurred(focusMode, important, tasks[0]) then Sharp(focusMode, important, tasks[1..])
    else [tasks[0]] + Sharp(focusMode, important, tasks[1..])
  }

  /** Outside focus mode no card is blurred. */
  lemma {:induction false} ChaosModeBlursNothing(important: seq<string>, tasks: seq<Task>)
    ensures Sharp(false, important, tasks) == tasks
  {
    if tasks != [] {
      ChaosModeBlursNothing(important, tasks[1..]);
    }
  }

  function IdSet(tasks: seq<Task>): set<string>
  {
    set i | 0 <= i < |tasks| :: tasks[i].id
  }

  /** The ids of a non-empty list: its head's and those of its tail, which
      do not include the head's when ids are distinct. */
  lemma IdSetCons(tasks: seq<Task>)
    requires tasks != [] && DistinctIds(tasks)
    ensures IdSet(tasks) == {tasks[0].id} + IdSet(tasks[1..])
    ensures tasks[0].id !in IdSet(tasks[1..])
  {
    var rest := tasks[1..];
    forall id | id in IdSet(tasks) ensures id in {tasks[0].id} + IdSet(rest) {
      var i :| 0 <= i < |tasks| && tasks[i].id == id;
      if i > 0 { assert rest[i - 1].id == id; }
    }
    forall id | id in IdSet(rest) ensures id in IdSet(tasks) && id != tasks[0].id {
      var i :| 0 <= i < |rest| && rest[i].id == id;
      assert tasks[i + 1].id == id;
    }
  }

  /** On a list with distinct ids, focus mode leaves at most as many cards
      sharp as there are ids in `important` that name one of them. */
  lemma {:induction false} SharpBound(important: seq<string>, tasks: seq<Task>)
    requires DistinctIds(tasks)
    ensures |Sharp(true, important, tasks)| <= |set id | id in important && id in IdSet(tasks)|
  {
    if tasks != [] {
      var t := tasks[0];
      var rest := tasks[1..];
      assert DistinctIds(rest);
      SharpBound(important, rest);
      var inRest := set id | id in important && id in IdSet(rest);
      var inAll := set id | id in important && id in IdSet(tasks);
      IdSetCons(tasks);
      if t.id in important {
        assert inAll == inRest + {t.id};
      } else {
        assert inAll == inRest;
      }
    }
  }

  lemma {:induction false} FewerDistinctThanEntries(xs: seq<string>)
    ensures |set x | x in xs| <= |xs|
  {
    if xs != [] {
      FewerDistinctThanEntries(xs[1..]);
      assert (set x | x in xs) == {xs[0]} + (set x | x in xs[1..]);
    }
  }

  /** In focus mode at most three cards stay sharp, provided no two cards
      share an id. */
  lemma AtMostThreeSharp(tasks: seq<Task>, ranked: seq<Task>)
    requires DistinctIds(tasks)
    ensures |Sharp(true, TopIds(ranked), tasks)| <= FocusSize
  {
    var important := TopIds(ranked);
    SharpBound(important, tasks);
    var named := set id | id in important && id in IdSet(tasks);
    var all := set x | x in important;
    assert all == named + (all - named);
    FewerDistinctThanEntries(important);
  }

  // ---------------------------------------------------------------------
  // The board's React state

  class App {
    var tasks: seq<Task>
    var focusMode: bool
    var explosions: seq<Explosion>

    constructor ()
      ensures tasks == [] && !focusMode && explosions == []
    {
      tasks, focusMode, explosions := [], false, [];
    }

    /** `loadTasks`: a successful fetch replaces the list; a failed one is
        only logged. */
    method LoadTasks(response: Option<seq<Task>>)
      modifies this
      ensures tasks == if response.Some? then response.value else old(tasks)
      ensures focusMode == old(focusMode) && explosions == old(explosions)
    {
      if response.Some? {
        tasks := response.value;
      }
    }

    /** The space-bar handler. */
    method ToggleFocusMode()
      modifies this
      ensures focusMode == !old(focusMode)
      ensures tasks == old(tasks) && explosions == old(explosions)
    {
      focusMode := !focusMode;
    }

    /** First half of `createTask`: the temporary card goes in front at
        once. `snapshot` is the list the failure path restores. */
    method BeginCreate(d: TaskData, tempId: string, now: int) returns (temp: Task, snapshot: seq<Task>)
      modifies this
      ensures temp == TempTask(d, tempId, now)
      ensures temp.width == 350.0 && temp.height == 200.0 && !temp.completed
      ensures snapshot == old(tasks)
      ensures tasks == [temp] + old(tasks)
      ensures focusMode == old(focusMode) && explosions == old(explosions)
    {
      snapshot := tasks;
      temp := TempTask(d, tempId, now);
      tasks := [temp] + tasks;
    }

    /** Second half of `createTask`, when the POST has answered: on success
        the entries carrying the temporary id become the server record; on
        failure the list is put back to `snapshot`. */
    method SettleCreate(temp: Task, snapshot: seq<Task>, response: Option<Task>)
      modifies this
      ensures tasks == if response.Some? then ReplaceById(old(tasks), temp.id, response.value) else snapshot
      ensures focusMode == old(focusMode) && explosions == old(explosions)
    {
      match response
      case Some(record) =>
        tasks := ReplaceById(tasks, temp.id, record);
      case None =>
        tasks := snapshot;
    }

    /** `createTask` with nothing in between its two halves. */
    method CreateTask(d: TaskData, tempId: string, now: int, response: Option<Task>)
      modifies this
      ensures response.Some? ==> tasks == ReplaceById([TempTask(d, tempId, now)] + old(tasks), tempId, response.value)
      ensures response.Some? && (forall i :: 0 <= i < |old(tasks)| ==> old(tasks)[i].id != tempId) ==>
        tasks == [response.value] + old(tasks)
      ensures response.None? ==> tasks == old(tasks)
      ensures focusMode == old(focusMode) && explosions == old(explosions)
    {
      var temp, snapshot := BeginCreate(d, tempId, now);
      SettleCreate(temp, snapshot, response);
      if response.Some? && (forall i :: 0 <= i < |snapshot| ==> snapshot[i].id != tempId) {
        SettleReplacesTempInPlace(snapshot, temp, response.value);
      }
    }

    /** `updateTask`: the merge is shown at once; the PUT runs in the
        background and its outcome does not touch the list. */
    method UpdateTask(id: string, u: TaskUpdate)
      modifies this
      ensures tasks == UpdateInList(old(tasks), id, u)
      ensures focusMode == old(focusMode) && explosions == old(explosions)
    {
      tasks := UpdateInList(tasks, id, u);
    }

    /** `deleteTask`: the card disappears at once. */
    method DeleteTask(id: string)
      modifies this
      ensures tasks == WithoutId(old(tasks), id)
      ensures focusMode == old(focusMode) && explosions == old(explosions)
    {
      tasks := WithoutId(tasks, id);
    }

    /** `completeTask`: nothing happens for an id not on the board;
        otherwise one burst is added at the first such card's centre and
        every card with that id is removed. */
    method CompleteTask(id: string, explosionId: int)
      modifies this
      ensures FindIndex(old(tasks), id) == |old(tasks)| ==>
        tasks == old(tasks) && explosions == old(explosions)
      ensures FindIndex(old(tasks), id) < |old(tasks)| ==>
        && tasks == WithoutId(old(tasks), id)
        && explosions == old(explosions) + [BurstAt(explosionId, old(tasks)[FindIndex(old(tasks), id)])]
      ensures focusMode == old(focusMode)
    {
      var k := FindIndex(tasks, id);
      if k == |tasks| {
        return;
      }
      var task := tasks[k];
      explosions := explosions + [BurstAt(explosionId, task)];
      tasks := WithoutId(tasks, id);
    }

    /** `removeExplosion`, when a burst's animation ends. */
    method RemoveExplosion(explosionId: int)
      modifies this
      ensures explosions == WithoutExplosion(old(explosions), explosionId)
      ensures tasks == old(tasks) && focusMode == old(focusMode)
    {
      explosions := WithoutExplosion(explosions, explosionId);
    }

    /** `importantTasks`, computed on every render: sorts the state list
        itself in place, then takes the ids of the first three. */
    method ImportantTasks() returns (important: seq<string>)
      modifies this
      ensures tasks == SortByRank(old(tasks))
      ensures multiset(tasks) == multiset(old(tasks))
      ensures important == TopIds(tasks)
      ensures focusMode == old(focusMode) && explosions == old(explosions)
    {
      tasks := SortByRank(tasks);
      important := TopIds(tasks);
    }
  }
}
