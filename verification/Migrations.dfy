/** The migration runner as a crash-recovery protocol.

    Any number of runs share one database. A run reads the recorded versions once, walks
    the file names in order and applies each missing file in its own transaction, which
    commits the body and the bookkeeping row together or not at all. Runs interleave at
    every database call, and each may fail, crash, or have a commit take effect while its
    acknowledgement is lost. */
module Migrations {
  import opened Common

  type Version = string

  /** The file list every run works from, in file-name order, and what running a body does
      to a schema (None: the body is rejected and its transaction rolls back). */
  datatype Plan<!S> = Plan(names: seq<Version>, exec: (S, Version) -> Option<S>)

  datatype Db<S> = Db(committed: seq<Version>, schema: S)

  ghost predicate Distinct(vs: seq<Version>) {
    forall i, j :: 0 <= i < j < |vs| ==> vs[i] != vs[j]
  }

  function Elements(vs: seq<Version>): set<Version> { set v | v in vs }

  // ---- Names and versions ------------------------------------------------------------

  const PREFIX := "migrations/"
  const SUFFIX := ".sql"

  /** TrimSuffix(TrimPrefix(name, "migrations/"), ".sql"). */
  function VersionOf(name: string): Version {
    var s := if PREFIX <= name then name[|PREFIX|..] else name;
    if |s| >= |SUFFIX| && s[|s| - |SUFFIX|..] == SUFFIX then s[..|s| - |SUFFIX|] else s
  }

  ghost predicate Globbed(name: string) {
    exists v :: name == PREFIX + v + SUFFIX
  }

  lemma VersionOfGlobbed(v: Version)
    ensures VersionOf(PREFIX + v + SUFFIX) == v
  {
    var name := PREFIX + v + SUFFIX;
    assert name[|PREFIX|..] == v + SUFFIX;
    assert (v + SUFFIX)[|v|..] == SUFFIX;
    assert (v + SUFFIX)[..|v|] == v;
  }

  /** Distinct files never compete for one bookkeeping row. */
  lemma VersionsAreDistinct(a: string, b: string)
    requires Globbed(a) && Globbed(b)
    ensures VersionOf(a) == VersionOf(b) <==> a == b
  {
    var v :| a == PREFIX + v + SUFFIX;
    var w :| b == PREFIX + w + SUFFIX;
    VersionOfGlobbed(v);
    VersionOfGlobbed(w);
  }

  // ---- What the files still missing from a starting point look like -------------------

  /** The first `n` files that `have` does not record, in file order. */
  function Missing(names: seq<Version>, have: set<Version>, n: nat): (m: seq<Version>)
    requires n <= |names|
    ensures forall v :: v in m <==> v in names[..n] && v !in have
  {
    if n == 0 then []
    else
      var rest := Missing(names, have, n - 1);
      assert names[..n] == names[..n - 1] + [names[n - 1]];
      if names[n - 1] in have then rest else rest + [names[n - 1]]
  }

  lemma {:induction false} MissingGrows(names: seq<Version>, have: set<Version>, i: nat, n: nat)
    requires i <= n <= |names|
    ensures Missing(names, have, i) <= Missing(names, have, n)
    decreases n
  {
    if i < n { MissingGrows(names, have, i, n - 1); }
  }

  lemma {:induction false} MissingDistinct(names: seq<Version>, have: set<Version>, n: nat)
    requires n <= |names| && Distinct(names)
    ensures Distinct(Missing(names, have, n))
  {
    if n > 0 {
      MissingDistinct(names, have, n - 1);
      assert names[n - 1] !in names[..n - 1];
    }
  }

  /** A starting point that is itself a prefix misses exactly the rest of the list. */
  lemma {:induction false} MissingAfterPrefix(names: seq<Version>, k: nat, n: nat)
    requires Distinct(names) && k <= n <= |names|
    ensures Missing(names, Elements(names[..k]), n) == names[k..n]
    decreases n
  {
    var have := Elements(names[..k]);
    if n == k {
      if Missing(names, have, n) != [] {
        assert Missing(names, have, n)[0] in Missing(names, have, n);
        assert false;
      }
    } else {
      MissingAfterPrefix(names, k, n - 1);
      assert names[n - 1] !in names[..k];
      assert names[k..n] == names[k..n - 1] + [names[n - 1]];
    }
  }

  /** Runs the bodies in order from one schema. */
  function Replay<S>(p: Plan<S>, s: S, vs: seq<Version>): Option<S> {
    if vs == [] then Some(s)
    else
      match Replay(p, s, vs[..|vs| - 1])
      case None => None
      case Some(t) => p.exec(t, vs[|vs| - 1])
  }

  /** What holds of the database at every moment: since `start`, exactly an initial segment
      of the missing files was committed, in file order, and the schema is their replay. */
  ghost predicate Good<S>(p: Plan<S>, start: Db<S>, db: Db<S>) {
    && start.committed <= db.committed
    && db.committed[|start.committed|..] <= Missing(p.names, Elements(start.committed), |p.names|)
    && Replay(p, start.schema, db.committed[|start.committed|..]) == Some(db.schema)
  }

  // ---- One transaction ----------------------------------------------------------------

  /** The body and its bookkeeping row, atomically; the row is refused when it exists. */
  function Commit<S>(p: Plan<S>, db: Db<S>, v: Version): Option<Db<S>> {
    match p.exec(db.schema, v)
    case None => None
    case Some(s) => if v in db.committed then None else Some(Db(db.committed + [v], s))
  }

  /** Of two prefixes of one duplicate-free list, the one whose elements the other has is the shorter. */
  lemma BeforeIsCommitted(all: seq<Version>, a: seq<Version>, b: seq<Version>)
    requires Distinct(all) && a <= all && b <= all
    requires forall v :: v in a ==> v in b
    ensures |a| <= |b|
  {
    if a != [] {
      var j := |a| - 1;
      assert a[j] in a;
      var k :| 0 <= k < |b| && b[k] == a[j];
      assert all[k] == all[j];
    }
  }

  /** A run that has passed names[..i] can only commit names[i] as the very next missing file. */
  lemma NextInOrder<S>(p: Plan<S>, start: Db<S>, db: Db<S>, i: nat)
    requires Distinct(p.names) && Good(p, start, db)
    requires i < |p.names| && p.names[i] !in db.committed
    requires forall v :: v in p.names[..i] ==> v in db.committed
    ensures var have := Elements(start.committed);
            var m := |db.committed| - |start.committed|;
            && m < |Missing(p.names, have, |p.names|)|
            && p.names[i] == Missing(p.names, have, |p.names|)[m]
  {
    var have := Elements(start.committed);
    var all := Missing(p.names, have, |p.names|);
    var before := Missing(p.names, have, i);
    var added := db.committed[|start.committed|..];
    assert db.committed == start.committed + added;
    MissingGrows(p.names, have, i, i + 1);
    MissingGrows(p.names, have, i + 1, |p.names|);
    assert Missing(p.names, have, i + 1) == before + [p.names[i]];
    assert all[|before|] == p.names[i];
    MissingDistinct(p.names, have, |p.names|);
    MissingGrows(p.names, have, i, |p.names|);
    forall v | v in before ensures v in added { assert v in p.names[..i]; }
    BeforeIsCommitted(all, before, added);
    assert p.names[i] !in added;
  }

  lemma CommitKeepsGood<S>(p: Plan<S>, start: Db<S>, db: Db<S>, v: Version)
    requires Good(p, start, db) && Commit(p, db, v).Some?
    requires var m := |db.committed| - |start.committed|;
             var all := Missing(p.names, Elements(start.committed), |p.names|);
             m < |all| && v == all[m]
    ensures Good(p, start, Commit(p, db, v).value)
  {
    var added := db.committed[|start.committed|..];
    var after := Commit(p, db, v).value;
    assert after.committed[|start.committed|..] == added + [v];
    assert (added + [v])[..|added|] == added;
  }

  // ---- The protocol -------------------------------------------------------------------

  datatype Phase =
    | Starting
    | Applying(done: set<Version>, next: nat, applied: nat)
    | Returned(ok: bool, applied: nat)
    | Crashed

  /** One call of the runner, given the first `files` names (an older build may know fewer). */
  datatype Run = Run(files: nat, phase: Phase)

  /** `author[j]` is the run whose transaction committed the j-th version since the start. */
  datatype World<S> = World(db: Db<S>, runs: map<nat, Run>, author: seq<nat>)

  datatype Event =
    | Start(r: nat, files: nat)
    | Read(r: nat, seen: set<Version>)
    | Skip(r: nat)
    | Apply(r: nat, acked: bool)
    | Finish(r: nat)
    | Fail(r: nat)
    | Crash(r: nat)

  predicate Live(run: Run) { run.phase.Starting? || run.phase.Applying? }

  function SetPhase<S>(w: World<S>, r: nat, ph: Phase): World<S>
    requires r in w.runs
  {
    w.(runs := w.runs[r := w.runs[r].(phase := ph)])
  }

  function AppliedSoFar(ph: Phase): nat {
    match ph
    case Applying(_, _, a) => a
    case Returned(_, a) => a
    case _ => 0
  }

  /** One atomic step; an event that is not possible in `w` changes nothing. */
  function Step<S>(p: Plan<S>, w: World<S>, e: Event): World<S> {
    match e
    case Start(r, files) =>
      if r !in w.runs && files <= |p.names|
      then w.(runs := w.runs[r := Run(files, Starting)]) else w
    case Read(r, seen) =>
      if r in w.runs && w.runs[r].phase.Starting? && seen <= Elements(w.db.committed)
      then SetPhase(w, r, Applying(seen, 0, 0)) else w
    case Skip(r) =>
      if r in w.runs && w.runs[r].phase.Applying? && w.runs[r].phase.next < w.runs[r].files
         && w.runs[r].phase.next < |p.names| && p.names[w.runs[r].phase.next] in w.runs[r].phase.done
      then SetPhase(w, r, w.runs[r].phase.(next := w.runs[r].phase.next + 1)) else w
    case Apply(r, acked) =>
      if r in w.runs && w.runs[r].phase.Applying? && w.runs[r].phase.next < w.runs[r].files
         && w.runs[r].phase.next < |p.names| && p.names[w.runs[r].phase.next] !in w.runs[r].phase.done
      then ApplyOne(p, w, r, acked) else w
    case Finish(r) =>
      if r in w.runs && w.runs[r].phase.Applying? && w.runs[r].phase.next == w.runs[r].files
      then SetPhase(w, r, Returned(true, w.runs[r].phase.applied)) else w
    case Fail(r) =>
      if r in w.runs && Live(w.runs[r])
      then SetPhase(w, r, Returned(false, AppliedSoFar(w.runs[r].phase))) else w
    case Crash(r) =>
      if r in w.runs && Live(w.runs[r]) then SetPhase(w, r, Crashed) else w
  }

  function ApplyOne<S>(p: Plan<S>, w: World<S>, r: nat, acked: bool): World<S>
    requires r in w.runs && w.runs[r].phase.Applying? && w.runs[r].phase.next < |p.names|
  {
    var ph := w.runs[r].phase;
    match Commit(p, w.db, p.names[ph.next])
    case None => SetPhase(w, r, Returned(false, ph.applied))
    case Some(db) =>
      var after := w.(db := db, author := w.author + [r]);
      SetPhase(after, r, if acked then ph.(next := ph.next + 1, applied := ph.applied + 1)
                         else Returned(false, ph.applied))
  }

  function Exec<S>(p: Plan<S>, w: World<S>, es: seq<Event>): World<S>
    decreases |es|
  {
    if es == [] then w else Exec(p, Step(p, w, es[0]), es[1..])
  }

  function Count(author: seq<nat>, r: nat): nat {
    if author == [] then 0
    else Count(author[..|author| - 1], r) + (if author[|author| - 1] == r then 1 else 0)
  }

  lemma {:induction false} CountAbsent(author: seq<nat>, r: nat)
    requires r !in author
    ensures Count(author, r) == 0
  {
    if author != [] { CountAbsent(author[..|author| - 1], r); }
  }

  /** Before any run begins. The recorded versions need not be a prefix of the list. */
  ghost predicate Initial<S>(p: Plan<S>, start: Db<S>, w: World<S>) {
    Distinct(p.names) && Distinct(start.committed) && w == World(start, map[], [])
  }

  /** What each run knows: everything before its cursor is committed; a run that returned nil
      leaves its whole list committed; its reported number is its own number of commits. */
  ghost predicate RunInv<S>(p: Plan<S>, w: World<S>, r: nat)
    requires r in w.runs
  {
    var run := w.runs[r];
    && run.files <= |p.names|
    && (run.phase.Starting? ==> Count(w.author, r) == 0)
    && (run.phase.Applying? ==>
          && run.phase.next <= run.files
          && run.phase.done <= Elements(w.db.committed)
          && (forall v :: v in p.names[..run.phase.next] ==> v in w.db.committed)
          && Count(w.author, r) == run.phase.applied)
    && (run.phase.Returned? ==>
          if run.phase.ok then
            && (forall v :: v in p.names[..run.files] ==> v in w.db.committed)
            && Count(w.author, r) == run.phase.applied
          else
            run.phase.applied <= Count(w.author, r) <= run.phase.applied + 1)
  }

  ghost predicate Inv<S>(p: Plan<S>, start: Db<S>, w: World<S>) {
    && Distinct(p.names) && Distinct(start.committed)
    && Good(p, start, w.db)
    && |w.author| == |w.db.committed| - |start.committed|
    && (forall r :: r in w.author ==> r in w.runs)
    && (forall r :: r in w.runs ==> RunInv(p, w, r))
  }

  lemma SetPhaseKeepsInv<S>(p: Plan<S>, start: Db<S>, w: World<S>, r: nat, ph: Phase)
    requires Inv(p, start, w) && r in w.runs
    requires RunInv(p, SetPhase(w, r, ph), r)
    ensures Inv(p, start, SetPhase(w, r, ph))
  {
    var w' := SetPhase(w, r, ph);
    forall q | q in w'.runs ensures RunInv(p, w', q) { assert q != r ==> RunInv(p, w, q); }
  }

  lemma StartKeepsInv<S>(p: Plan<S>, start: Db<S>, w: World<S>, r: nat, files: nat)
    requires Inv(p, start, w)
    ensures Inv(p, start, Step(p, w, Start(r, files)))
  {
    var w' := Step(p, w, Start(r, files));
    if r !in w.runs { CountAbsent(w.author, r); }
    forall q | q in w'.runs ensures RunInv(p, w', q) { assert q in w.runs ==> RunInv(p, w, q); }
  }

  lemma StepKeepsInv<S>(p: Plan<S>, start: Db<S>, w: World<S>, e: Event)
    requires Inv(p, start, w)
    ensures Inv(p, start, Step(p, w, e))
    ensures w.db.committed <= Step(p, w, e).db.committed
  {
    var w' := Step(p, w, e);
    if e.Start? {
      StartKeepsInv(p, start, w, e.r, e.files);
    } else if w' != w {
      assert RunInv(p, w, e.r);
      if e.Apply? {
        ApplyKeepsInv(p, start, w, e.r, e.acked);
      } else {
        var ph := w.runs[e.r].phase;
        if e.Skip? { assert p.names[..ph.next + 1] == p.names[..ph.next] + [p.names[ph.next]]; }
        SetPhaseKeepsInv(p, start, w, e.r, w'.runs[e.r].phase);
      }
    }
  }

  lemma ApplyKeepsInv<S>(p: Plan<S>, start: Db<S>, w: World<S>, r: nat, acked: bool)
    requires Inv(p, start, w) && r in w.runs && w.runs[r].phase.Applying?
    requires w.runs[r].phase.next < w.runs[r].files
    requires p.names[w.runs[r].phase.next] !in w.runs[r].phase.done
    ensures Inv(p, start, ApplyOne(p, w, r, acked))
    ensures w.db.committed <= ApplyOne(p, w, r, acked).db.committed
  {
    var i := w.runs[r].phase.next;
    assert RunInv(p, w, r);
    if Commit(p, w.db, p.names[i]).Some? {
      NextInOrder(p, start, w.db, i);
      CommitKeepsGood(p, start, w.db, p.names[i]);
      CommittedKeepsInv(p, start, w, r, acked);
    } else {
      SetPhaseKeepsInv(p, start, w, r, Returned(false, w.runs[r].phase.applied));
    }
  }

  lemma CommittedKeepsInv<S>(p: Plan<S>, start: Db<S>, w: World<S>, r: nat, acked: bool)
    requires Inv(p, start, w) && r in w.runs && w.runs[r].phase.Applying?
    requires w.runs[r].phase.next < w.runs[r].files <= |p.names|
    requires Commit(p, w.db, p.names[w.runs[r].phase.next]).Some?
    requires Good(p, start, Commit(p, w.db, p.names[w.runs[r].phase.next]).value)
    ensures Inv(p, start, ApplyOne(p, w, r, acked))
  {
    var i := w.runs[r].phase.next;
    var w' := ApplyOne(p, w, r, acked);
    assert w'.author[..|w.author|] == w.author;
    assert p.names[..i + 1] == p.names[..i] + [p.names[i]];
    forall q | q in w'.runs ensures RunInv(p, w', q) { assert RunInv(p, w, q); }
  }

  lemma {:induction false} ExecKeepsInv<S>(p: Plan<S>, start: Db<S>, w: World<S>, es: seq<Event>)
    requires Inv(p, start, w)
    ensures Inv(p, start, Exec(p, w, es))
    ensures w.db.committed <= Exec(p, w, es).db.committed
    decreases |es|
  {
    if es != [] {
      StepKeepsInv(p, start, w, es[0]);
      ExecKeepsInv(p, start, Step(p, w, es[0]), es[1..]);
    }
  }

  // ---- Main results -------------------------------------------------------------------

  lemma GoodIsDistinct<S>(p: Plan<S>, start: Db<S>, db: Db<S>)
    requires Distinct(p.names) && Distinct(start.committed) && Good(p, start, db)
    ensures Distinct(db.committed)
  {
    var have := Elements(start.committed);
    var added := db.committed[|start.committed|..];
    MissingDistinct(p.names, have, |p.names|);
    assert db.committed == start.committed + added;
    forall i, j | 0 <= i < j < |db.committed| ensures db.committed[i] != db.committed[j] {
      if i < |start.committed| <= j {
        assert db.committed[j] == added[j - |start.committed|];
        assert added[j - |start.committed|] in Missing(p.names, have, |p.names|);
        assert db.committed[i] in start.committed;
      } else if i >= |start.committed| {
        assert db.committed[i] == added[i - |start.committed|];
        assert db.committed[j] == added[j - |start.committed|];
      }
    }
  }

  /** Every interleaving of any number of runs, with crashes, failures and lost
      acknowledgements anywhere: the missing files commit in file order without gaps, no
      body commits twice, and the schema is the replay of what was committed. */
  lemma CommitsInOrderOnce<S>(p: Plan<S>, start: Db<S>, w: World<S>, es: seq<Event>)
    requires Initial(p, start, w)
    ensures var db := Exec(p, w, es).db;
            && Distinct(db.committed)
            && (exists m: nat ::
                  var all := Missing(p.names, Elements(start.committed), |p.names|);
                  && m <= |all|
                  && db.committed == start.committed + all[..m]
                  && Replay(p, start.schema, all[..m]) == Some(db.schema))
  {
    assert start.committed[|start.committed|..] == [];
    ExecKeepsInv(p, start, w, es);
    var db := Exec(p, w, es).db;
    GoodIsDistinct(p, start, db);
    var all := Missing(p.names, Elements(start.committed), |p.names|);
    var m := |db.committed| - |start.committed|;
    assert db.committed == start.committed + db.committed[|start.committed|..];
    assert db.committed[|start.committed|..] == all[..m];
  }

  /** From a database whose record is a prefix of the list, the record is a prefix for ever
      and the schema is the fold of that prefix; a record that is not a prefix never becomes
      one (out-of-order history cannot be repaired by running more). */
  lemma PrefixForEver<S>(p: Plan<S>, empty: S, start: Db<S>, w: World<S>, es: seq<Event>)
    requires Initial(p, start, w)
    requires Replay(p, empty, start.committed) == Some(start.schema)
    ensures var db := Exec(p, w, es).db;
            && (db.committed <= p.names <==> start.committed <= p.names)
            && Replay(p, empty, db.committed) == Some(db.schema)
  {
    assert start.committed[|start.committed|..] == [];
    ExecKeepsInv(p, start, w, es);
    var db := Exec(p, w, es).db;
    var added := db.committed[|start.committed|..];
    assert db.committed == start.committed + added;
    ReplayAppend(p, empty, start.committed, added);
    if start.committed <= p.names { StaysPrefix(p, start, db); }
  }

  lemma StaysPrefix<S>(p: Plan<S>, start: Db<S>, db: Db<S>)
    requires Distinct(p.names) && Good(p, start, db) && start.committed <= p.names
    ensures db.committed <= p.names
  {
    var k := |start.committed|;
    assert start.committed == p.names[..k];
    MissingAfterPrefix(p.names, k, |p.names|);
    assert db.committed == start.committed + db.committed[k..];
    assert db.committed[k..] <= p.names[k..];
    assert p.names == p.names[..k] + p.names[k..];
  }

  lemma {:induction false} ReplayAppend<S>(p: Plan<S>, s: S, a: seq<Version>, b: seq<Version>)
    ensures Replay(p, s, a + b) ==
            match Replay(p, s, a) case None => None case Some(t) => Replay(p, t, b)
    decreases |b|
  {
    if b == [] {
      assert a + b == a;
    } else {
      assert (a + b)[..|a + b| - 1] == a + b[..|b| - 1];
      ReplayAppend(p, s, a, b[..|b| - 1]);
    }
  }

  /** A run that returns nil leaves every file it knows committed, then and ever after, and
      the number it reports is the number of versions its own transactions committed; one
      that returns an error has at most one more commit than it reports. */
  lemma ReturnedRuns<S>(p: Plan<S>, start: Db<S>, w: World<S>, es: seq<Event>, r: nat)
    requires Initial(p, start, w)
    requires var u := Exec(p, w, es); r in u.runs && u.runs[r].phase.Returned?
    ensures var u := Exec(p, w, es);
            u.runs[r].files <= |p.names| &&
            if u.runs[r].phase.ok then
              && (forall i :: 0 <= i < u.runs[r].files ==> p.names[i] in u.db.committed)
              && u.runs[r].phase.applied == Count(u.author, r)
            else
              u.runs[r].phase.applied <= Count(u.author, r) <= u.runs[r].phase.applied + 1
  {
    assert start.committed[|start.committed|..] == [];
    ExecKeepsInv(p, start, w, es);
    var u := Exec(p, w, es);
    assert RunInv(p, u, r);
    forall i | 0 <= i < u.runs[r].files && u.runs[r].phase.ok ensures p.names[i] in u.db.committed {
      assert p.names[i] in p.names[..u.runs[r].files];
    }
  }

  // ---- Recovery -----------------------------------------------------------------------

  /** From the starting schema every missing body succeeds in its turn. */
  ghost predicate Replayable<S>(p: Plan<S>, start: Db<S>) {
    var all := Missing(p.names, Elements(start.committed), |p.names|);
    forall n :: 0 <= n <= |all| ==> Replay(p, start.schema, all[..n]).Some?
  }

  lemma {:induction false} ExecAppend<S>(p: Plan<S>, w: World<S>, a: seq<Event>, b: seq<Event>)
    ensures Exec(p, w, a + b) == Exec(p, Exec(p, w, a), b)
    decreases |a|
  {
    if a == [] {
      assert a + b == b;
    } else {
      assert (a + b)[1..] == a[1..] + b;
      ExecAppend(p, Step(p, w, a[0]), a[1..], b);
    }
  }

  /** Crash recovery: whatever happened before, one undisturbed run that reads the full
      record brings the database to the end of the list and returns nil. */
  lemma Recovers<S>(p: Plan<S>, start: Db<S>, w: World<S>, past: seq<Event>, r: nat)
    returns (es: seq<Event>)
    requires Initial(p, start, w)
    requires Replayable(p, start) && r !in Exec(p, w, past).runs
    ensures var u := Exec(p, w, past + es);
            && r in u.runs && u.runs[r].phase.Returned? && u.runs[r].phase.ok
            && forall v :: v in p.names ==> v in u.db.committed
  {
    assert start.committed[|start.committed|..] == [];
    ExecKeepsInv(p, start, w, past);
    es := RerunFinishes(p, start, Exec(p, w, past), r);
    ExecAppend(p, w, past, es);
    var end := Exec(p, w, past + es);
    assert RunInv(p, end, r);
    assert p.names[..|p.names|] == p.names;
  }

  lemma RerunFinishes<S>(p: Plan<S>, start: Db<S>, u: World<S>, r: nat) returns (es: seq<Event>)
    requires Inv(p, start, u) && Replayable(p, start) && r !in u.runs
    ensures var v := Exec(p, u, es);
            && Inv(p, start, v) && r in v.runs
            && v.runs[r].files == |p.names| && v.runs[r].phase.Returned? && v.runs[r].phase.ok
  {
    var s1 := Step(p, u, Start(r, |p.names|));
    StepKeepsInv(p, start, u, Start(r, |p.names|));
    var read := Read(r, Elements(u.db.committed));
    StepKeepsInv(p, start, s1, read);
    var rest := FinishesFrom(p, start, Step(p, s1, read), r);
    es := [Start(r, |p.names|)] + ([read] + rest);
    ExecCons(p, s1, read, rest);
    ExecCons(p, u, Start(r, |p.names|), [read] + rest);
  }

  lemma ExecCons<S>(p: Plan<S>, w: World<S>, e: Event, es: seq<Event>)
    ensures Exec(p, w, [e] + es) == Exec(p, Step(p, w, e), es)
  {
    assert ([e] + es)[1..] == es;
  }

  lemma {:induction false} FinishesFrom<S>(p: Plan<S>, start: Db<S>, w: World<S>, r: nat)
    returns (es: seq<Event>)
    requires Inv(p, start, w) && Replayable(p, start)
    requires r in w.runs && w.runs[r].files == |p.names| && w.runs[r].phase.Applying?
    requires forall i :: w.runs[r].phase.next <= i < |p.names| ==>
               (p.names[i] in w.db.committed <==> p.names[i] in w.runs[r].phase.done)
    ensures var u := Exec(p, w, es);
            && Inv(p, start, u) && r in u.runs
            && u.runs[r] == Run(|p.names|, u.runs[r].phase)
            && u.runs[r].phase.Returned? && u.runs[r].phase.ok
    decreases |p.names| - w.runs[r].phase.next
  {
    assert RunInv(p, w, r);
    var i := w.runs[r].phase.next;
    var e := if i == |p.names| then Finish(r)
             else if p.names[i] in w.runs[r].phase.done then Skip(r) else Apply(r, true);
    var w' := Step(p, w, e);
    StepKeepsInv(p, start, w, e);
    if i == |p.names| {
      es := [e];
      assert Exec(p, w, es) == Exec(p, w', []);
    } else {
      if e.Apply? { NextCommitSucceeds(p, start, w.db, i); }
      forall j | i + 1 <= j < |p.names|
        ensures p.names[j] in w'.db.committed <==> p.names[j] in w'.runs[r].phase.done
      {
        assert p.names[j] != p.names[i];
      }
      var rest := FinishesFrom(p, start, w', r);
      es := [e] + rest;
      assert es[1..] == rest;
    }
  }

  lemma NextCommitSucceeds<S>(p: Plan<S>, start: Db<S>, db: Db<S>, i: nat)
    requires Distinct(p.names) && Good(p, start, db) && Replayable(p, start)
    requires i < |p.names| && p.names[i] !in db.committed
    requires forall v :: v in p.names[..i] ==> v in db.committed
    ensures Commit(p, db, p.names[i]).Some?
  {
    NextInOrder(p, start, db, i);
    var all := Missing(p.names, Elements(start.committed), |p.names|);
    var m := |db.committed| - |start.committed|;
    assert all[..m] == db.committed[|start.committed|..];
    assert all[..m + 1][..m] == all[..m];
    assert Replay(p, start.schema, all[..m + 1]).Some?;
  }
}
