/** Replaying notifications that a replica already reflects does it no harm. */
module CatchUp {
  import opened Basics
  import opened Forests
  import opened Media
  import opened Replica

  // ----- logs a daemon can produce -----

  predicate IsLeaf<T>(f: Forest<T>, p: string) {
    forall q :: q in Paths(f) ==> ParentOf(f, q, ROOT_PATH) != p
  }

  /** New devices are new and have their parent; devices leave as leaves; all else is about present ones. */
  predicate Legal(s: Forest<Device>, n: Note) {
    match n
    case Added(parent, path, _) =>
      path !in Paths(s) && path != ROOT_PATH && (parent == ROOT_PATH || parent in Paths(s))
    case Removed(path) => path in Paths(s) && IsLeaf(s, path)
    case _ => n.path in Paths(s)
  }

  predicate LegalLog(s: Forest<Device>, log: seq<Note>)
    decreases |log|
  {
    log == [] || (Legal(s, log[0]) && LegalLog(Apply(s, log[0]), log[1..]))
  }

  lemma {:induction false} LegalAppend(s: Forest<Device>, a: seq<Note>, b: seq<Note>)
    ensures LegalLog(s, a + b) <==> LegalLog(s, a) && LegalLog(ApplyAll(s, a), b)
    decreases |a|
  {
    if a == [] {
      assert a + b == b;
    } else {
      assert (a + b)[1..] == a[1..] + b;
      LegalAppend(Apply(s, a[0]), a[1..], b);
    }
  }

  ghost predicate Tidy<T>(f: Forest<T>) { Unique(f) && Sorted(f) && ROOT_PATH !in Paths(f) }

  // ----- what notes write into a device -----

  datatype Write = Keep | SetMount(mnt: string, opts: string) | SetAll(device: Device)

  function Do(w: Write, d: Device): Device {
    match w
    case Keep => d
    case SetMount(mnt, opts) => d.(mnt := mnt, opts := opts)
    case SetAll(e) => e
  }

  function Then(w: Write, v: Write): Write {
    match v
    case Keep => w
    case SetMount(mnt, opts) => if w.SetAll? then SetAll(w.device.(mnt := mnt, opts := opts)) else v
    case SetAll(_) => v
  }

  function WriteOf(n: Note, p: string): Write {
    if n.path != p then Keep
    else match n
      case Changed(_, _, m) => SetAll(AsDevice(Conveyed(m)))
      case Mounted(_, mnt, opts) => if mnt != "" && opts != "" then SetMount(mnt, opts) else Keep
      case Unmounted(_, mnt) => if mnt != "" then SetMount("", "") else Keep
      case _ => Keep
  }

  function Writes(log: seq<Note>, p: string): Write {
    if log == [] then Keep else Then(WriteOf(log[0], p), Writes(log[1..], p))
  }

  predicate Leaves(p: string, log: seq<Note>) {
    log != [] && (log[0] == Removed(p) || Leaves(p, log[1..]))
  }

  // ----- one note on any tidy replica -----

  lemma ApplyTidy(f: Forest<Device>, n: Note)
    requires Tidy(f) && (n.Added? ==> n.path != ROOT_PATH)
    ensures Tidy(Apply(f, n))
  {
    match n
    case Added(parent, p, m) =>
      if p !in Paths(f) {
        var d := AsDevice(Conveyed(m));
        InsertSortedKeeps(f, p, d);
        InsertUnderKeeps(f, parent, p, d);
        InsertSortedSorted(f, p, d);
        InsertUnderSorted(f, parent, p, d);
      }
    case Removed(p) =>
      RemoveKeeps(f, p);
      RemoveSorted(f, p);
    case Changed(_, p, m) => UpdateKeepsShape(f, p, AsDevice(Conveyed(m)));
    case Mounted(p, mnt, opts) =>
      if p in Paths(f) { UpdateKeepsShape(f, p, Get(f, p).(mnt := mnt, opts := opts)); }
    case Unmounted(p, _) =>
      if p in Paths(f) { UpdateKeepsShape(f, p, Get(f, p).(mnt := "", opts := "")); }
  }

  /** A path that is there and stays keeps its parent and gets the note's writes. */
  lemma ApplyKeeps(f: Forest<Device>, n: Note, p: string)
    requires Unique(f) && p in Paths(f) && p in Paths(Apply(f, n))
    ensures ParentOf(Apply(f, n), p, ROOT_PATH) == ParentOf(f, p, ROOT_PATH)
    ensures Get(Apply(f, n), p) == Do(WriteOf(n, p), Get(f, p))
  {
    match n
    case Added(parent, q, m) =>
      if q !in Paths(f) {
        var d := AsDevice(Conveyed(m));
        InsertSortedKeeps(f, q, d);
        InsertUnderKeeps(f, parent, q, d);
        assert Find(Apply(f, n), p) == Find(f, p);
      }
    case Removed(q) =>
      RemoveKeeps(f, q);
      assert Find(Apply(f, n), p) == Find(f, p);
    case Changed(_, q, m) => UpdateAt(f, q, AsDevice(Conveyed(m)), p);
    case Mounted(q, mnt, opts) =>
      if q in Paths(f) { UpdateAt(f, q, Get(f, q).(mnt := mnt, opts := opts), p); }
    case Unmounted(q, _) =>
      if q in Paths(f) { UpdateAt(f, q, Get(f, q).(mnt := "", opts := ""), p); }
  }

  lemma UpdateAt(f: Forest<Device>, q: string, d: Device, p: string)
    requires p in Paths(f)
    ensures p in Paths(Update(f, q, d)) && Get(Update(f, q, d), p) == if p == q then d else Get(f, p)
    ensures ParentOf(Update(f, q, d), p, ROOT_PATH) == ParentOf(f, p, ROOT_PATH)
  {
    UpdateKeepsShape(f, q, d);
    FindUpdate(f, q, d, p);
  }

  /** Which paths there are afterwards. */
  lemma ApplyPaths(f: Forest<Device>, n: Note)
    requires Tidy(f)
    ensures n.Added? ==>
      Paths(Apply(f, n)) == Paths(f) + if n.parent == ROOT_PATH || n.parent in Paths(f) then {n.path} else {}
    ensures n.Removed? ==> Paths(Apply(f, n)) <= Paths(f) - {n.path}
    ensures n.Removed? && IsLeaf(f, n.path) ==> Paths(Apply(f, n)) == Paths(f) - {n.path}
    ensures !n.Added? && !n.Removed? ==> Paths(Apply(f, n)) == Paths(f)
  {
    match n
    case Added(parent, p, m) =>
      if p !in Paths(f) {
        InsertSortedKeeps(f, p, AsDevice(Conveyed(m)));
        InsertUnderKeeps(f, parent, p, AsDevice(Conveyed(m)));
      }
    case Removed(p) =>
      RemoveKeeps(f, p);
      if IsLeaf(f, p) {
        ParentsInside(f);
        RemoveSpares(f, p, ROOT_PATH, Paths(f) - {p});
      }
    case Changed(_, p, m) => UpdateKeepsShape(f, p, AsDevice(Conveyed(m)));
    case Mounted(p, mnt, opts) =>
      if p in Paths(f) { UpdateKeepsShape(f, p, Get(f, p).(mnt := mnt, opts := opts)); }
    case Unmounted(p, _) =>
      if p in Paths(f) { UpdateKeepsShape(f, p, Get(f, p).(mnt := "", opts := "")); }
  }

  lemma ParentsInside(f: Forest<Device>)
    ensures forall q :: q in Paths(f) ==>
      ParentOf(f, q, ROOT_PATH) == ROOT_PATH || ParentOf(f, q, ROOT_PATH) in Paths(f)
  {
    forall q | q in Paths(f) ensures ParentOf(f, q, ROOT_PATH) == ROOT_PATH || ParentOf(f, q, ROOT_PATH) in Paths(f) {
      ParentInside(f, q, ROOT_PATH);
    }
  }

  lemma AddedAt(f: Forest<Device>, n: Note)
    requires Tidy(f) && n.Added? && n.path !in Paths(f) && (n.parent == ROOT_PATH || n.parent in Paths(f))
    ensures n.path in Paths(Apply(f, n))
    ensures ParentOf(Apply(f, n), n.path, ROOT_PATH) == n.parent
    ensures Get(Apply(f, n), n.path) == AsDevice(Conveyed(n.media))
  {
    var d := AsDevice(Conveyed(n.media));
    InsertSortedKeeps(f, n.path, d);
    InsertUnderKeeps(f, n.parent, n.path, d);
    assert Find(Apply(f, n), n.path) == Some(d);
  }

  // ----- a device that does not leave again -----

  /** Its parent does not leave either. */
  lemma {:induction false} ParentStays(s: Forest<Device>, log: seq<Note>, p: string)
    requires Tidy(s) && LegalLog(s, log) && p in Paths(s) && !Leaves(p, log)
    ensures var q := ParentOf(s, p, ROOT_PATH); q == ROOT_PATH || (q in Paths(s) && !Leaves(q, log))
    decreases |log|
  {
    ParentInside(s, p, ROOT_PATH);
    if log != [] {
      hide Apply, Unique, Sorted, ParentOf;
      ApplyTidy(s, log[0]);
      ApplyPaths(s, log[0]);
      ApplyKeeps(s, log[0], p);
      ParentStays(Apply(s, log[0]), log[1..], p);
    }
  }

  /** It ends up under the same parent with all the writes of the log. */
  lemma {:induction false} StaysToTheEnd(s: Forest<Device>, log: seq<Note>, p: string)
    requires Tidy(s) && LegalLog(s, log) && p in Paths(s) && !Leaves(p, log)
    ensures var f := ApplyAll(s, log);
      p in Paths(f) && ParentOf(f, p, ROOT_PATH) == ParentOf(s, p, ROOT_PATH)
      && Get(f, p) == Do(Writes(log, p), Get(s, p))
    decreases |log|
  {
    if log != [] {
      hide Apply, Unique, Sorted, ParentOf, Get;
      ApplyTidy(s, log[0]);
      ApplyPaths(s, log[0]);
      ApplyKeeps(s, log[0], p);
      StaysToTheEnd(Apply(s, log[0]), log[1..], p);
    }
  }

  lemma {:induction false} LogTidy(s: Forest<Device>, log: seq<Note>)
    requires Tidy(s) && LegalLog(s, log)
    ensures Tidy(ApplyAll(s, log))
    decreases |log|
  {
    if log != [] {
      ApplyTidy(s, log[0]);
      LogTidy(Apply(s, log[0]), log[1..]);
    }
  }

  // ----- convergence -----

  /** A device of the true state that stays is in the replica too, and what is left of the log makes it equal. */
  ghost predicate Caught(t: Forest<Device>, s: Forest<Device>, rest: seq<Note>, p: string)
    requires p in Paths(s)
  {
    p in Paths(t) && ParentOf(t, p, ROOT_PATH) == ParentOf(s, p, ROOT_PATH)
    && Do(Writes(rest, p), Get(t, p)) == Do(Writes(rest, p), Get(s, p))
  }

  /** A device the replica has too early is already as it will be in the end. */
  ghost predicate Early(t: Forest<Device>, end: Forest<Device>, p: string)
    requires p in Paths(t)
  {
    p in Paths(end) && ParentOf(t, p, ROOT_PATH) == ParentOf(end, p, ROOT_PATH) && Get(t, p) == Get(end, p)
  }

  ghost predicate Converging(t: Forest<Device>, s: Forest<Device>, rest: seq<Note>) {
    (forall p :: p in Paths(s) && !Leaves(p, rest) ==> Caught(t, s, rest, p))
    && (forall p :: p in Paths(t) && p !in Paths(s) && !Leaves(p, rest) ==> Early(t, ApplyAll(s, rest), p))
  }

  lemma DoThen(w: Write, v: Write, d: Device)
    ensures Do(Then(w, v), d) == Do(v, Do(w, d))
  {}

  lemma DoTwice(w: Write, d: Device)
    ensures Do(w, Do(w, d)) == Do(w, d)
  {}

  /** The devices that stay form an upward-closed group of the replica, so removals spare them. */
  lemma StayersSpared(t: Forest<Device>, s: Forest<Device>, rest: seq<Note>, p: string)
    requires Tidy(t) && Tidy(s) && LegalLog(s, rest) && Converging(t, s, rest) && rest != []
    requires p in Paths(s) && !Leaves(p, rest)
    ensures p in Paths(Apply(t, rest[0]))
  {
    hide Unique, Sorted;
    var n := rest[0];
    assert Caught(t, s, rest, p);
    ApplyPaths(t, n);
    if n.Removed? {
      var group := set q | q in Paths(s) && !Leaves(q, rest);
      forall q | q in Paths(t) && q in group
        ensures ParentOf(t, q, ROOT_PATH) == ROOT_PATH || ParentOf(t, q, ROOT_PATH) in group
      {
        assert Caught(t, s, rest, q);
        ParentStays(s, rest, q);
      }
      assert Leaves(n.path, rest);
      RemoveSpares(t, n.path, ROOT_PATH, group);
    }
  }

  lemma CaughtStep(t: Forest<Device>, s: Forest<Device>, rest: seq<Note>, p: string)
    requires Tidy(t) && Tidy(s) && LegalLog(s, rest) && Converging(t, s, rest) && rest != []
    requires p in Paths(Apply(s, rest[0])) && !Leaves(p, rest[1..])
    ensures Caught(Apply(t, rest[0]), Apply(s, rest[0]), rest[1..], p)
  {
    hide Apply, Unique, Sorted, ParentOf, Get, Do, Then, WriteOf;
    var n, more := rest[0], rest[1..];
    var s1, t1 := Apply(s, n), Apply(t, n);
    ApplyPaths(s, n);
    if p in Paths(s) {
      assert !Leaves(p, rest);
      assert Caught(t, s, rest, p);
      StayersSpared(t, s, rest, p);
      ApplyKeeps(s, n, p);
      ApplyKeeps(t, n, p);
      DoThen(WriteOf(n, p), Writes(more, p), Get(s, p));
      DoThen(WriteOf(n, p), Writes(more, p), Get(t, p));
    } else {
      AddedCaught(t, s, rest);
    }
  }

  lemma AddedCaught(t: Forest<Device>, s: Forest<Device>, rest: seq<Note>)
    requires Tidy(t) && Tidy(s) && LegalLog(s, rest) && Converging(t, s, rest) && rest != []
    requires rest[0].Added? && !Leaves(rest[0].path, rest[1..])
    ensures rest[0].path in Paths(Apply(s, rest[0]))
      && Caught(Apply(t, rest[0]), Apply(s, rest[0]), rest[1..], rest[0].path)
  {
    hide Unique, Sorted, ParentOf, Get, Do, Then, WriteOf, Insert;
    var n, more, p := rest[0], rest[1..], rest[0].path;
    var s1 := Apply(s, n);
    ApplyPaths(s, n);
    ApplyTidy(s, n);
    AddedAt(s, n);
    if p in Paths(t) {
      assert !Leaves(p, rest);
      assert Early(t, ApplyAll(s, rest), p);
      StaysToTheEnd(s1, more, p);
      DoTwice(Writes(more, p), Get(s1, p));
    } else {
      if n.parent != ROOT_PATH {
        ParentStays(s1, more, p);
        assert n.parent in Paths(s) && !Leaves(n.parent, rest);
        assert Caught(t, s, rest, n.parent);
      }
      AddedAt(t, n);
    }
  }

  lemma EarlyStep(t: Forest<Device>, s: Forest<Device>, rest: seq<Note>, p: string)
    requires Tidy(t) && Tidy(s) && LegalLog(s, rest) && Converging(t, s, rest) && rest != []
    requires p in Paths(Apply(t, rest[0])) && p !in Paths(Apply(s, rest[0])) && !Leaves(p, rest[1..])
    ensures Early(Apply(t, rest[0]), ApplyAll(s, rest), p)
  {
    hide Apply, Unique, Sorted, ParentOf, Get, Do;
    var n := rest[0];
    ApplyPaths(s, n);
    ApplyPaths(t, n);
    assert p in Paths(t) && p !in Paths(s) && n != Removed(p);
    assert Early(t, ApplyAll(s, rest), p);
    ApplyKeeps(t, n, p);
    assert WriteOf(n, p) == Keep;
    DoKeep(Get(t, p));
  }

  lemma DoKeep(d: Device)
    ensures Do(Keep, d) == d
  {}

  lemma ConvergingStep(t: Forest<Device>, s: Forest<Device>, rest: seq<Note>)
    requires Tidy(t) && Tidy(s) && LegalLog(s, rest) && Converging(t, s, rest) && rest != []
    ensures Tidy(Apply(t, rest[0])) && Tidy(Apply(s, rest[0]))
    ensures Converging(Apply(t, rest[0]), Apply(s, rest[0]), rest[1..])
  {
    hide Apply, Unique, Sorted, ParentOf, Get, Caught, Early;
    var n := rest[0];
    forall p | p in Paths(Apply(s, n)) && !Leaves(p, rest[1..]) ensures Caught(Apply(t, n), Apply(s, n), rest[1..], p) {
      CaughtStep(t, s, rest, p);
    }
    forall p | p in Paths(Apply(t, n)) && p !in Paths(Apply(s, n)) && !Leaves(p, rest[1..])
      ensures Early(Apply(t, n), ApplyAll(Apply(s, n), rest[1..]), p)
    {
      EarlyStep(t, s, rest, p);
    }
    ApplyTidy(s, n);
    ApplyTidy(t, n);
  }

  lemma {:induction false} Converge(t: Forest<Device>, s: Forest<Device>, rest: seq<Note>)
    requires Tidy(t) && Tidy(s) && LegalLog(s, rest) && Converging(t, s, rest)
    ensures ApplyAll(t, rest) == ApplyAll(s, rest)
    decreases |rest|
  {
    hide Apply, Tidy, Converging;
    if rest == [] {
      NothingLeft(t, s);
    } else {
      ConvergingStep(t, s, rest);
      Converge(Apply(t, rest[0]), Apply(s, rest[0]), rest[1..]);
    }
  }

  lemma NothingLeft(t: Forest<Device>, s: Forest<Device>)
    requires Tidy(t) && Tidy(s) && Converging(t, s, [])
    ensures t == s
  {
    forall p | p in Paths(s)
      ensures p in Paths(t) && Find(t, p) == Find(s, p) && ParentOf(t, p, ROOT_PATH) == ParentOf(s, p, ROOT_PATH)
    {
      assert Caught(t, s, [], p);
      assert Get(t, p) == Get(s, p);
    }
    forall p | p in Paths(t) ensures p in Paths(s) {
      assert p in Paths(s) || Early(t, ApplyAll(s, []), p);
    }
    Extensional(t, s, ROOT_PATH);
  }

  /** A replica that reflects a log is converging when any suffix of the log is replayed over it. */
  lemma ReflectsConverges(middle: Forest<Device>, suffix: seq<Note>)
    requires Tidy(middle) && LegalLog(middle, suffix)
    ensures Tidy(ApplyAll(middle, suffix)) && Converging(ApplyAll(middle, suffix), middle, suffix)
  {
    hide Apply, Unique, Sorted, ParentOf, Get, Do;
    LogTidy(middle, suffix);
    var end := ApplyAll(middle, suffix);
    forall p | p in Paths(middle) && !Leaves(p, suffix) ensures Caught(end, middle, suffix, p) {
      StaysToTheEnd(middle, suffix, p);
      DoTwice(Writes(suffix, p), Get(middle, p));
    }
  }

  /** The replica that already reflects a whole log is not changed by replaying any suffix of it. */
  lemma ReplayIsHarmless(s: Forest<Device>, before: seq<Note>, suffix: seq<Note>)
    requires Tidy(s) && LegalLog(s, before + suffix)
    ensures var end := ApplyAll(s, before + suffix); ApplyAll(end, suffix) == end
  {
    hide Apply, Tidy, Converging;
    LegalAppend(s, before, suffix);
    ApplyAppend(s, before, suffix);
    LogTidy(s, before);
    var middle := ApplyAll(s, before);
    ReflectsConverges(middle, suffix);
    Converge(ApplyAll(middle, suffix), middle, suffix);
  }

  // ----- a device that is never out of the replica -----

  predicate Remains(t: Forest<Device>, log: seq<Note>, p: string)
    decreases |log|
  {
    p in Paths(t) && (log == [] || Remains(Apply(t, log[0]), log[1..], p))
  }

  lemma {:induction false} RemainsAppend(t: Forest<Device>, a: seq<Note>, b: seq<Note>, p: string)
    ensures Remains(t, a + b, p) <==> Remains(t, a, p) && Remains(ApplyAll(t, a), b, p)
    decreases |a|
  {
    hide Apply;
    if a == [] {
      assert a + b == b;
    } else {
      assert (a + b)[1..] == a[1..] + b;
      RemainsAppend(Apply(t, a[0]), a[1..], b, p);
    }
  }

  /** Whatever is replayed, what its own removal names does not remain. */
  lemma {:induction false} LeaversDoNotRemain(t: Forest<Device>, log: seq<Note>, p: string)
    requires Tidy(t) && (forall i :: 0 <= i < |log| && log[i].Added? ==> log[i].path != ROOT_PATH) && Leaves(p, log)
    ensures !Remains(t, log, p)
    decreases |log|
  {
    hide Apply, Unique, Sorted;
    if log[0] == Removed(p) {
      ApplyPaths(t, log[0]);
    } else {
      ApplyTidy(t, log[0]);
      LeaversDoNotRemain(Apply(t, log[0]), log[1..], p);
    }
  }

  /** While a converging replica catches up, it never loses a device that the true log keeps. */
  lemma {:induction false} StayersRemain(t: Forest<Device>, s: Forest<Device>, rest: seq<Note>, p: string)
    requires Tidy(t) && Tidy(s) && LegalLog(s, rest) && Converging(t, s, rest)
    requires p in Paths(s) && !Leaves(p, rest)
    ensures Remains(t, rest, p)
    decreases |rest|
  {
    hide Apply, Tidy;
    assert Caught(t, s, rest, p);
    if rest != [] {
      ConvergingStep(t, s, rest);
      ApplyPaths(s, rest[0]);
      StayersRemain(Apply(t, rest[0]), Apply(s, rest[0]), rest[1..], p);
    }
  }
}
