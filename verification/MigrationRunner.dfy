/** The migration runner as it runs: its reading of the record, its loop and its transactions over
    a database that others use too, and the proof that what it does is a run of the protocol of
    module Migrations. */
module MigrationRunner {
  import opened Common
  import opened Migrations

  // ---- The runner itself --------------------------------------------------------------

  /** How the environment treats the transaction of one file. */
  datatype Fault = Fine | Refused | AckLost

  /** What other runs do meanwhile: commit the next `k` missing files, as far as they go. */
  function Others<S>(p: Plan<S>, start: Db<S>, db: Db<S>, k: nat): Db<S>
    decreases k
  {
    var all := Missing(p.names, Elements(start.committed), |p.names|);
    var m := |db.committed| - |start.committed|;
    if k == 0 || m < 0 || m >= |all| then db
    else
      match Commit(p, db, all[m])
      case None => db
      case Some(after) => Others(p, start, after, k - 1)
  }

  lemma {:induction false} OthersKeepGood<S>(p: Plan<S>, start: Db<S>, db: Db<S>, k: nat)
    requires Good(p, start, db)
    ensures Good(p, start, Others(p, start, db, k))
    ensures db.committed <= Others(p, start, db, k).committed
    decreases k
  {
    var all := Missing(p.names, Elements(start.committed), |p.names|);
    var m := |db.committed| - |start.committed|;
    if k > 0 && m < |all| && Commit(p, db, all[m]).Some? {
      CommitKeepsGood(p, start, db, all[m]);
      OthersKeepGood(p, start, Commit(p, db, all[m]).value, k - 1);
    }
  }

  // ---- A run's own commits, and what others do as steps of the protocol ------------------

  /** The versions since the start that run r committed, in order. */
  function Own(author: seq<nat>, added: seq<Version>, r: nat): seq<Version>
    requires |author| == |added|
  {
    if author == [] then []
    else
      var n := |author| - 1;
      Own(author[..n], added[..n], r) + if author[n] == r then [added[n]] else []
  }

  function OwnIn<S>(start: Db<S>, w: World<S>, r: nat): seq<Version>
    requires start.committed <= w.db.committed && |w.author| == |w.db.committed| - |start.committed|
  {
    Own(w.author, w.db.committed[|start.committed|..], r)
  }

  lemma {:induction false} OwnIsCounted(author: seq<nat>, added: seq<Version>, r: nat)
    requires |author| == |added|
    ensures |Own(author, added, r)| == Count(author, r)
  {
    if author != [] { OwnIsCounted(author[..|author| - 1], added[..|author| - 1], r); }
  }

  lemma {:induction false} OwnAbsent(author: seq<nat>, added: seq<Version>, r: nat)
    requires |author| == |added| && r !in author
    ensures Own(author, added, r) == []
  {
    if author != [] { OwnAbsent(author[..|author| - 1], added[..|author| - 1], r); }
  }

  /** One commit more: it is r's own exactly if r is its author. */
  lemma OwnGrows<S>(start: Db<S>, w: World<S>, u: World<S>, q: nat, v: Version, r: nat)
    requires start.committed <= w.db.committed && |w.author| == |w.db.committed| - |start.committed|
    requires u.db.committed == w.db.committed + [v] && u.author == w.author + [q]
    ensures start.committed <= u.db.committed
    ensures OwnIn(start, u, r) == OwnIn(start, w, r) + if q == r then [v] else []
  {
    var k := |start.committed|;
    assert u.db.committed[k..] == w.db.committed[k..] + [v];
    assert u.author[..|w.author|] == w.author;
    assert u.db.committed[k..][..|w.author|] == w.db.committed[k..];
  }

  /** Another run, from a cursor before which everything is committed, gets to commit the next
      missing file, and run r does not notice. */
  lemma {:induction false} CommitsNextFrom<S>(p: Plan<S>, start: Db<S>, w: World<S>, q: nat, r: nat)
    returns (es: seq<Event>)
    requires Inv(p, start, w) && r in w.runs && q in w.runs && q != r
    requires w.runs[q].files == |p.names| && w.runs[q].phase.Applying?
    requires w.runs[q].phase.done == Elements(w.db.committed)
    requires NextMissing(p, start, w.db).Some? && Commit(p, w.db, NextMissing(p, start, w.db).value).Some?
    ensures var u := Exec(p, w, es);
            var v := NextMissing(p, start, w.db).value;
            && Inv(p, start, u) && u.db == Commit(p, w.db, v).value
            && r in u.runs && u.runs[r] == w.runs[r]
            && OwnIn(start, u, r) == OwnIn(start, w, r)
    decreases |p.names| - w.runs[q].phase.next
  {
    assert RunInv(p, w, q);
    var i := w.runs[q].phase.next;
    var v := NextMissing(p, start, w.db).value;
    NextMissingIsNamed(p, start, w.db);
    assert p.names[..|p.names|] == p.names;
    if i == |p.names| {
      assert false;
    }
    var e := if p.names[i] in w.db.committed then Skip(q) else Apply(q, true);
    var w' := Step(p, w, e);
    StepKeepsInv(p, start, w, e);
    if e.Skip? {
      var rest := CommitsNextFrom(p, start, w', q, r);
      ExecCons(p, w, e, rest);
      es := [e] + rest;
    } else {
      NextInOrder(p, start, w.db, i);
      OwnGrows(start, w, w', q, v, r);
      es := [e];
      assert Exec(p, w, es) == Exec(p, w', []);
    }
  }

  /** The next file in line for committing. */
  function NextMissing<S>(p: Plan<S>, start: Db<S>, db: Db<S>): Option<Version> {
    var all := Missing(p.names, Elements(start.committed), |p.names|);
    var m := |db.committed| - |start.committed|;
    if 0 <= m < |all| then Some(all[m]) else None
  }

  lemma NextMissingIsNamed<S>(p: Plan<S>, start: Db<S>, db: Db<S>)
    requires NextMissing(p, start, db).Some?
    ensures NextMissing(p, start, db).value in p.names
  {
    assert NextMissing(p, start, db).value in Missing(p.names, Elements(start.committed), |p.names|);
    assert p.names[..|p.names|] == p.names;
  }

  lemma CommitsNext<S>(p: Plan<S>, start: Db<S>, w: World<S>, r: nat) returns (es: seq<Event>)
    requires Inv(p, start, w) && r in w.runs
    requires NextMissing(p, start, w.db).Some? && Commit(p, w.db, NextMissing(p, start, w.db).value).Some?
    ensures var u := Exec(p, w, es);
            && Inv(p, start, u) && u.db == Commit(p, w.db, NextMissing(p, start, w.db).value).value
            && r in u.runs && u.runs[r] == w.runs[r]
            && OwnIn(start, u, r) == OwnIn(start, w, r)
  {
    var q := Above(w.runs.Keys);
    var begin, read := Start(q, |p.names|), Read(q, Elements(w.db.committed));
    var w1 := Step(p, w, begin);
    StepKeepsInv(p, start, w, begin);
    var w2 := Step(p, w1, read);
    StepKeepsInv(p, start, w1, read);
    var rest := CommitsNextFrom(p, start, w2, q, r);
    ExecCons(p, w1, read, rest);
    ExecCons(p, w, begin, [read] + rest);
    es := [begin] + ([read] + rest);
  }

  /** What others do meanwhile is steps of the protocol: k further runs commit a file each. */
  lemma {:induction false} OthersAreSteps<S>(p: Plan<S>, start: Db<S>, w: World<S>, k: nat, r: nat)
    returns (es: seq<Event>)
    requires Inv(p, start, w) && r in w.runs
    ensures var u := Exec(p, w, es);
            && Inv(p, start, u) && u.db == Others(p, start, w.db, k)
            && r in u.runs && u.runs[r] == w.runs[r]
            && OwnIn(start, u, r) == OwnIn(start, w, r)
    decreases k
  {
    var v := NextMissing(p, start, w.db);
    if k == 0 || v.None? || Commit(p, w.db, v.value).None? {
      es := [];
    } else {
      var one := CommitsNext(p, start, w, r);
      var rest := OthersAreSteps(p, start, Exec(p, w, one), k - 1, r);
      ExecAppend(p, w, one, rest);
      es := one + rest;
    }
  }

  lemma Snoc<S>(p: Plan<S>, w: World<S>, es: seq<Event>, e: Event)
    ensures Exec(p, w, es + [e]) == Step(p, Exec(p, w, es), e)
  {
    ExecAppend(p, w, es, [e]);
    assert Exec(p, Exec(p, w, es), [e]) == Exec(p, Step(p, Exec(p, w, es), e), []);
  }

  /** A turn of the loop at one file: whether it succeeds, what it commits itself, and the
      database it leaves. */
  datatype Turn<S> = Turn(ok: bool, mine: seq<Version>, db: Db<S>)

  /** The turn at file v on the database `found`. */
  function TurnAt<S>(p: Plan<S>, found: Db<S>, v: Version, done: set<Version>, fault: Fault): Turn<S> {
    if v in done then Turn(true, [], found)
    else if fault.Refused? then Turn(false, [], found)
    else
      match Commit(p, found, v)
      case None => Turn(false, [], found)
      case Some(db) => Turn(fault.Fine?, [v], db)
  }

  /** Where a run is after a turn. */
  function AfterTurn<S>(run: Run, t: Turn<S>): Run
    requires run.phase.Applying?
  {
    var ph := run.phase;
    run.(phase := if t.ok then Applying(ph.done, ph.next + 1, ph.applied + |t.mine|) else Returned(false, ph.applied))
  }

  /** The steps `es` from w lead to this database, with run r here and `own` its own commits. */
  ghost predicate Course<S>(p: Plan<S>, start: Db<S>, w: World<S>, es: seq<Event>, r: nat, run: Run, db: Db<S>,
                            own: seq<Version>) {
    var u := Exec(p, w, es);
    && u.db == db && r in u.runs && u.runs[r] == run
    && start.committed <= u.db.committed && |u.author| == |u.db.committed| - |start.committed|
    && OwnIn(start, u, r) == own
  }

  lemma CourseFacts<S>(p: Plan<S>, start: Db<S>, w: World<S>, es: seq<Event>, r: nat, run: Run, db: Db<S>,
                       own: seq<Version>)
    requires Inv(p, start, w) && Course(p, start, w, es, r, run, db, own)
    ensures Distinct(p.names) && Good(p, start, db) && run.files <= |p.names|
    ensures run.phase.Applying? ==>
              && run.phase.next <= run.files && run.phase.done <= Elements(db.committed)
              && forall v :: v in p.names[..run.phase.next] ==> v in db.committed
    ensures run.phase.Returned? && run.phase.ok ==> forall v :: v in p.names[..run.files] ==> v in db.committed
    ensures forall v :: v in own ==> v in db.committed
    ensures Distinct(own)
  {
    var u := Exec(p, w, es);
    ExecKeepsInv(p, start, w, es);
    assert RunInv(p, u, r);
    GoodIsDistinct(p, start, db);
    OwnFromAdded(u.author, db.committed[|start.committed|..], r);
    assert db.committed == start.committed + db.committed[|start.committed|..];
  }

  lemma {:induction false} OwnFromAdded(author: seq<nat>, added: seq<Version>, r: nat)
    requires |author| == |added|
    ensures forall v :: v in Own(author, added, r) ==> v in added
    ensures Distinct(added) ==> Distinct(Own(author, added, r))
  {
    if author != [] {
      var n := |author| - 1;
      OwnFromAdded(author[..n], added[..n], r);
      assert added == added[..n] + [added[n]];
      if Distinct(added) { assert added[n] !in added[..n]; }
    }
  }

  lemma OthersInCourse<S>(p: Plan<S>, start: Db<S>, w: World<S>, es: seq<Event>, r: nat, run: Run, db: Db<S>,
                          own: seq<Version>, k: nat) returns (more: seq<Event>)
    requires Inv(p, start, w) && Course(p, start, w, es, r, run, db, own)
    ensures Course(p, start, w, more, r, run, Others(p, start, db, k), own)
  {
    ExecKeepsInv(p, start, w, es);
    var rest := OthersAreSteps(p, start, Exec(p, w, es), k, r);
    ExecAppend(p, w, es, rest);
    more := es + rest;
  }

  /** A turn is steps of the protocol. */
  lemma TurnInCourse<S>(p: Plan<S>, start: Db<S>, w: World<S>, es: seq<Event>, r: nat, run: Run, db: Db<S>,
                        own: seq<Version>, fault: Fault) returns (more: seq<Event>)
    requires Inv(p, start, w) && Course(p, start, w, es, r, run, db, own)
    requires run.phase.Applying? && run.phase.next < run.files <= |p.names|
    ensures var t := TurnAt(p, db, p.names[run.phase.next], run.phase.done, fault);
            Course(p, start, w, more, r, AfterTurn(run, t), t.db, own + t.mine)
  {
    var v := p.names[run.phase.next];
    var t := TurnAt(p, db, v, run.phase.done, fault);
    if t.mine == [] {
      var e := if v in run.phase.done then Skip(r) else if fault.Refused? then Fail(r) else Apply(r, fault.Fine?);
      more := StepInCourse(p, start, w, es, r, run, db, own, e, AfterTurn(run, t).phase);
      assert own + t.mine == own;
    } else {
      more := CommitInCourse(p, start, w, es, r, run, db, own, fault.Fine?);
    }
  }

  /** A transaction of run r that commits. */
  lemma CommitInCourse<S>(p: Plan<S>, start: Db<S>, w: World<S>, es: seq<Event>, r: nat, run: Run, db: Db<S>,
                          own: seq<Version>, acked: bool) returns (more: seq<Event>)
    requires Inv(p, start, w) && Course(p, start, w, es, r, run, db, own)
    requires run.phase.Applying? && run.phase.next < run.files <= |p.names|
    requires p.names[run.phase.next] !in run.phase.done && Commit(p, db, p.names[run.phase.next]).Some?
    ensures var t := Turn(acked, [p.names[run.phase.next]], Commit(p, db, p.names[run.phase.next]).value);
            Course(p, start, w, more, r, AfterTurn(run, t), t.db, own + t.mine)
  {
    var v, u := p.names[run.phase.next], Exec(p, w, es);
    Snoc(p, w, es, Apply(r, acked));
    OwnGrows(start, u, Step(p, u, Apply(r, acked)), r, v, r);
    more := es + [Apply(r, acked)];
  }

  lemma WholeTurnInCourse<S>(p: Plan<S>, start: Db<S>, w: World<S>, es: seq<Event>, r: nat, run: Run, db: Db<S>,
                             own: seq<Version>, fault: Fault, k: nat) returns (more: seq<Event>)
    requires Inv(p, start, w) && Course(p, start, w, es, r, run, db, own)
    requires run.phase.Applying? && run.phase.next < run.files <= |p.names|
    ensures var t := TurnAt(p, Others(p, start, db, k), p.names[run.phase.next], run.phase.done, fault);
            Course(p, start, w, more, r, AfterTurn(run, t), t.db, own + t.mine)
  {
    more := OthersInCourse(p, start, w, es, r, run, db, own, k);
    more := TurnInCourse(p, start, w, more, r, run, Others(p, start, db, k), own, fault);
  }

  lemma Begins<S>(p: Plan<S>, start: Db<S>, w: World<S>, r: nat, files: nat) returns (es: seq<Event>)
    requires Inv(p, start, w) && r !in w.runs && files <= |p.names|
    ensures Course(p, start, w, es, r, Run(files, Starting), w.db, [])
  {
    StepKeepsInv(p, start, w, Start(r, files));
    OwnAbsent(w.author, w.db.committed[|start.committed|..], r);
    Snoc(p, w, [], Start(r, files));
    es := [] + [Start(r, files)];
  }

  /** One more step of run r that commits nothing. */
  lemma StepInCourse<S>(p: Plan<S>, start: Db<S>, w: World<S>, es: seq<Event>, r: nat, run: Run, db: Db<S>,
                        own: seq<Version>, e: Event, ph: Phase) returns (more: seq<Event>)
    requires Inv(p, start, w) && Course(p, start, w, es, r, run, db, own)
    requires Step(p, Exec(p, w, es), e) == SetPhase(Exec(p, w, es), r, ph)
    ensures Course(p, start, w, more, r, run.(phase := ph), db, own)
  {
    ExecKeepsInv(p, start, w, es);
    StepKeepsInv(p, start, Exec(p, w, es), e);
    Snoc(p, w, es, e);
    more := es + [e];
  }

  ghost predicate NoneIn(vs: seq<Version>, committed: seq<Version>) { forall v :: v in vs ==> v !in committed }

  /** One turn: what it keeps and what it means. */
  lemma TurnMeans<S>(p: Plan<S>, start: Db<S>, db: Db<S>, i: nat, done: set<Version>, fault: Fault, k: nat)
    requires Distinct(p.names) && i < |p.names| && Good(p, start, db)
    requires done <= Elements(db.committed) && forall v :: v in p.names[..i] ==> v in db.committed
    ensures var t := TurnAt(p, Others(p, start, db, k), p.names[i], done, fault);
            && Good(p, start, t.db) && db.committed <= t.db.committed
            && t.db.committed == Others(p, start, db, k).committed + t.mine
            && (t.ok ==> forall v :: v in p.names[..i + 1] ==> v in t.db.committed)
            && (forall v :: v in t.mine ==> v == p.names[i] && v !in db.committed)
            && (k == 0 && fault.Fine? && Replayable(p, start) && (p.names[i] in db.committed ==> p.names[i] in done)
                ==> t.ok)
  {
    OthersKeepGood(p, start, db, k);
    var found := Others(p, start, db, k);
    assert p.names[..i + 1] == p.names[..i] + [p.names[i]];
    if Commit(p, found, p.names[i]).Some? {
      NextInOrder(p, start, found, i);
      CommitKeepsGood(p, start, found, p.names[i]);
    } else if k == 0 && Replayable(p, start) && p.names[i] !in found.committed {
      NextCommitSucceeds(p, start, found, i);
    }
  }

  /** From the cursor on, the record is what was read. */
  ghost predicate AheadAsRead<S>(p: Plan<S>, i: nat, done: set<Version>, committed: seq<Version>) {
    forall j :: i <= j < |p.names| ==> (p.names[j] in committed <==> p.names[j] in done)
  }

  // ---- The loop's invariant -----------------------------------------------------------

  /** What the loop works with: its files, the record it read, and what happens around it. */
  datatype Job = Job(files: nat, done: set<Version>, fault: nat -> Fault, others: nat -> nat)

  /** No faults, nobody else, and a record read in full when the database was `db`. */
  ghost predicate Undisturbed<S>(p: Plan<S>, start: Db<S>, job: Job, before: seq<Version>) {
    && Replayable(p, start) && AheadAsRead(p, 0, job.done, before)
    && forall g :: job.fault(g) == Fine && job.others(g) == 0
  }

  /** Run r is at cursor i and has announced exactly what it committed, all of it new since the
      record was `before`. */
  ghost predicate Progress<S>(p: Plan<S>, start: Db<S>, w: World<S>, es: seq<Event>, r: nat, job: Job, i: nat,
                              db: Db<S>, log: seq<Version>, before: seq<Version>) {
    && Course(p, start, w, es, r, Run(job.files, Applying(job.done, i, |log|)), db, log)
    && i <= job.files <= |p.names| && before <= db.committed && NoneIn(log, before)
    && (Undisturbed(p, start, job, before) ==> AheadAsRead(p, i, job.done, db.committed))
  }

  /** The loop is over. What it announced is what run r committed, short of one commit whose
      acknowledgement was lost; undisturbed it succeeds. */
  ghost predicate Outcome<S>(p: Plan<S>, start: Db<S>, w: World<S>, es: seq<Event>, r: nat, job: Job, ok: bool,
                             db: Db<S>, log: seq<Version>, own: seq<Version>, before: seq<Version>) {
    && Course(p, start, w, es, r,
              Run(job.files, if ok then Applying(job.done, job.files, |log|) else Returned(false, |log|)), db, own)
    && before <= db.committed && NoneIn(own, before)
    && log <= own && |own| <= |log| + 1
    && (ok || (forall g :: !job.fault(g).AckLost?) ==> log == own)
    && (Undisturbed(p, start, job, before) ==> ok)
  }

  /** What a turn needs to know. */
  lemma ProgressFacts<S>(p: Plan<S>, start: Db<S>, w: World<S>, es: seq<Event>, r: nat, job: Job, i: nat,
                         db: Db<S>, log: seq<Version>, before: seq<Version>)
    requires Inv(p, start, w) && Progress(p, start, w, es, r, job, i, db, log, before)
    ensures Distinct(p.names) && Good(p, start, db) && job.done <= Elements(db.committed)
    ensures i <= |p.names| && forall v :: v in p.names[..i] ==> v in db.committed
  {
    CourseFacts(p, start, w, es, r, Run(job.files, Applying(job.done, i, |log|)), db, log);
  }

  /** A turn either moves the loop on or ends it. */
  lemma ProgressTurn<S>(p: Plan<S>, start: Db<S>, w: World<S>, es: seq<Event>, r: nat, job: Job, i: nat,
                        db: Db<S>, log: seq<Version>, before: seq<Version>) returns (more: seq<Event>)
    requires Inv(p, start, w) && Progress(p, start, w, es, r, job, i, db, log, before) && i < job.files
    ensures i < |p.names|
    ensures var t := TurnAt(p, Others(p, start, db, job.others(i)), p.names[i], job.done, job.fault(i));
            if t.ok then Progress(p, start, w, more, r, job, i + 1, t.db, log + t.mine, before)
            else Outcome(p, start, w, more, r, job, false, t.db, log, log + t.mine, before)
  {
    ProgressFacts(p, start, w, es, r, job, i, db, log, before);
    TurnMeans(p, start, db, i, job.done, job.fault(i), job.others(i));
    var run := Run(job.files, Applying(job.done, i, |log|));
    var t := TurnAt(p, Others(p, start, db, job.others(i)), p.names[i], job.done, job.fault(i));
    more := WholeTurnInCourse(p, start, w, es, r, run, db, log, job.fault(i), job.others(i));
    assert t.mine == [] ==> log + t.mine == log;
  }

  class Database<S> {
    var committed: seq<Version>
    var schema: S

    constructor (d: Db<S>)
      ensures State() == d
    {
      committed, schema := d.committed, d.schema;
    }

    ghost function State(): Db<S>
      reads this
    {
      Db(committed, schema)
    }

    /** Other runs get the database for a while. */
    method Yield(p: Plan<S>, start: Db<S>, k: nat)
      requires Good(p, start, State())
      modifies this
      ensures State() == Others(p, start, old(State()), k)
      ensures Good(p, start, State()) && old(committed) <= committed
    {
      OthersKeepGood(p, start, State(), k);
      var d := Others(p, start, Db(committed, schema), k);
      committed, schema := d.committed, d.schema;
    }

    /** The versions the first `rows` rows record. A reader that checks the row error returns
        None when the rows broke off early; one that does not check returns what it got. */
    method AppliedVersions(rows: nat, checked: bool) returns (done: Option<set<Version>>)
      ensures done.Some? ==> done.value <= Elements(committed)
      ensures rows >= |committed| ==> done == Some(Elements(committed))
      ensures rows < |committed| ==> (done == None <==> checked)
    {
      var out: set<Version> := {};
      var i := 0;
      while i < |committed| && i < rows
        invariant 0 <= i <= |committed| && i <= rows
        invariant out == Elements(committed[..i])
      {
        assert committed[..i + 1] == committed[..i] + [committed[i]];
        out := out + {committed[i]};
        i := i + 1;
      }
      assert i == |committed| ==> committed[..i] == committed;
      done := if rows < |committed| && checked then None else Some(out);
    }

    /** One transaction. A refused or rolled-back one leaves the database as it was. */
    method ApplyOne(p: Plan<S>, v: Version, fault: Fault) returns (ok: bool)
      modifies this
      ensures ok <==> fault.Fine? && Commit(p, old(State()), v).Some?
      ensures !fault.Refused? && Commit(p, old(State()), v).Some? ==>
                State() == Commit(p, old(State()), v).value
      ensures fault.Refused? || Commit(p, old(State()), v).None? ==> State() == old(State())
    {
      if fault.Refused? { return false; }
      match p.exec(schema, v)
      case None => return false;
      case Some(s) =>
        if v in committed { return false; }
        committed, schema := committed + [v], s;
        return fault.Fine?;
    }

    /** One turn of the loop: others run, then the file at the cursor is skipped or applied. A file
        that others have recorded since the record was read makes the turn fail. */
    method Visit(p: Plan<S>, start: Db<S>, i: nat, done: set<Version>, fault: Fault, k: nat)
      returns (ok: bool, applied: bool)
      requires Distinct(p.names) && i < |p.names| && Good(p, start, State())
      requires done <= Elements(committed) && forall v :: v in p.names[..i] ==> v in committed
      modifies this
      ensures Good(p, start, State()) && old(committed) <= committed
      ensures var t := TurnAt(p, Others(p, start, old(State()), k), p.names[i], done, fault);
              && ok == t.ok && State() == t.db
              && (ok ==> t.mine == if applied then [p.names[i]] else [])
      // success means the file is committed, by this turn if and only if it was not read
      ensures ok ==> forall v :: v in p.names[..i + 1] ==> v in committed
      ensures applied <==> ok && p.names[i] !in done
      ensures var others := Others(p, start, old(State()), k).committed;
              && (applied ==> p.names[i] !in others && committed == others + [p.names[i]])
              && (p.names[i] !in done && p.names[i] in others ==> !ok && committed == others)
              && (p.names[i] in done ==> ok && committed == others)
    {
      TurnMeans(p, start, State(), i, done, fault, k);
      Yield(p, start, k);
      if p.names[i] in done { return true, false; }
      ok := ApplyOne(p, p.names[i], fault);
      applied := ok;
    }

    /** The loop over the files, with other runs taking the database before every transaction and
        any fault at any file. `log` is what it announces, `own` what run r of the protocol commits
        on this course. */
    method ApplyMissing(p: Plan<S>, start: Db<S>, job: Job, r: nat, ghost w: World<S>, ghost past: seq<Event>)
      returns (ok: bool, applied: nat, log: seq<Version>, ghost es: seq<Event>, ghost own: seq<Version>)
      requires Inv(p, start, w) && Progress(p, start, w, past, r, job, 0, State(), [], committed)
      modifies this
      ensures Outcome(p, start, w, es, r, job, ok, State(), log, own, old(committed)) && applied == |log|
    {
      ok, applied, log, es, own := false, 0, [], past, [];
      var i := 0;
      while i < job.files
        invariant 0 <= i <= job.files && applied == |log|
        invariant Progress(p, start, w, es, r, job, i, State(), log, old(committed))
      {
        var turnOk, did;
        turnOk, did, es, own := Turn(p, start, job, i, r, w, es, log, old(committed));
        if !turnOk { return; }
        if did { applied, log := applied + 1, log + [p.names[i]]; }
        i := i + 1;
      }
      ok, own := true, log;
    }

    /** One turn of that loop. */
    method Turn(p: Plan<S>, start: Db<S>, job: Job, i: nat, r: nat, ghost w: World<S>, ghost past: seq<Event>,
                ghost log: seq<Version>, ghost before: seq<Version>)
      returns (ok: bool, applied: bool, ghost es: seq<Event>, ghost own: seq<Version>)
      requires Inv(p, start, w) && Progress(p, start, w, past, r, job, i, State(), log, before) && i < job.files
      modifies this
      ensures i < |p.names|
      ensures ok ==>
                Progress(p, start, w, es, r, job, i + 1, State(), if applied then log + [p.names[i]] else log, before)
      ensures !ok ==> Outcome(p, start, w, es, r, job, false, State(), log, own, before)
    {
      ghost var db := State();
      ProgressFacts(p, start, w, past, r, job, i, db, log, before);
      es := ProgressTurn(p, start, w, past, r, job, i, db, log, before);
      ghost var t := TurnAt(p, Others(p, start, db, job.others(i)), p.names[i], job.done, job.fault(i));
      own := log + t.mine;
      assert t.mine == [] ==> own == log;
      ok, applied := Visit(p, start, i, job.done, job.fault(i), job.others(i));
    }

    /** The whole runner: read the record (cut short after `rows` rows), then the loop. What it
        does is a run of the protocol: run r of it starts, and returns what this returns; so what
        every run of the protocol promises holds of it. Its log is exactly what it committed
        itself, short of one commit whose acknowledgement was lost. */
    method Migrate(p: Plan<S>, start: Db<S>, files: nat, rows: nat, checked: bool,
                   faults: nat -> Fault, others: nat -> nat, r: nat, ghost w: World<S>)
      returns (ok: bool, applied: nat, log: seq<Version>, ghost own: seq<Version>, ghost es: seq<Event>)
      requires Inv(p, start, w) && w.db == State() && r !in w.runs && files <= |p.names|
      modifies this
      ensures Course(p, start, w, es, r, Run(files, Returned(ok, applied)), State(), own)
      ensures applied == |log| && log <= own && |own| <= |log| + 1
      ensures ok || (forall g :: !faults(g).AckLost?) ==> log == own
      ensures old(committed) <= committed && Distinct(log)
      ensures forall v :: v in log ==> v in committed && v !in old(committed)
      ensures ok ==> forall v :: v in p.names[..files] ==> v in committed
      ensures rows < |old(committed)| && checked ==> !ok && log == own == [] && State() == old(State())
      ensures (rows >= |old(committed)| && Replayable(p, start) && forall g :: faults(g) == Fine && others(g) == 0) ==> ok
    {
      es := Begins(p, start, w, r, files);
      var done := AppliedVersions(rows, checked);
      if done.None? {
        es := StepInCourse(p, start, w, es, r, Run(files, Starting), State(), [], Fail(r), Returned(false, 0));
        return false, 0, [], [], es;
      }
      es := StepInCourse(p, start, w, es, r, Run(files, Starting), State(), [],
                         Read(r, done.value), Applying(done.value, 0, 0));
      ok, applied, log, es, own := ApplyMissing(p, start, Job(files, done.value, faults, others), r, w, es);
      if ok {
        es := StepInCourse(p, start, w, es, r, Run(files, Applying(done.value, files, applied)), State(), own,
                           Finish(r), Returned(true, applied));
      }
      CourseFacts(p, start, w, es, r, Run(files, Returned(ok, applied)), State(), own);
    }
  }
}
