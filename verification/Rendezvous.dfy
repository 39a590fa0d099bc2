/**
 The completion rendezvous that gates teardown. Rank 0 serves: it collects one
 arrival per rank, decides, and sends the decision back; the other ranks retry
 until they receive it. A rank closes its buffer only after a decision that
 releases it.

 Frames carry a keyed digest. The model keeps the set of frames ever signed with
 the launch secret; a received frame authenticates exactly when it is one of
 them. Otherwise the network is arbitrary: any frame may be delivered to any
 rank at any time, any number of times, or never.
 */
module Rendezvous {
  import opened Sums
  import opened Wrappers

  datatype Decision = Decision(release: bool, abort: bool)

  /** A frame whose fields do not have the expected types is `Malformed`. */
  datatype Frame =
    | ArrivalFrame(launch: string, caseId: string, rank: int, quiesced: bool, passed: bool)
    | DecisionFrame(launch: string, caseId: string, decision: Decision)
    | Malformed

  datatype Report = Report(quiesced: bool, passed: bool)

  predicate ArrivalValid(
    f: Frame, launch: string, caseId: string, world: nat, seen: set<int>, authenticated: bool)
  {
    && f.ArrivalFrame? && f.launch == launch && f.caseId == caseId
    && 0 < f.rank < world && f.rank !in seen && authenticated
  }

  predicate DecisionValid(f: Frame, launch: string, caseId: string, authenticated: bool)
  {
    f.DecisionFrame? && f.launch == launch && f.caseId == caseId && authenticated
  }

  /** Release only if all ranks are quiesced; abort unless all are quiesced and all have passed. */
  function Decide(reports: map<int, Report>): Decision
  {
    var release := forall r :: r in reports ==> reports[r].quiesced;
    if release then Decision(true, exists r :: r in reports && !reports[r].passed) else Decision(false, true)
  }

  /** What a barrier call gives its rank: a decision, or an exception. */
  datatype Outcome = Pending | Raised | Got(decision: Decision)

  /** The end of `run_case`: close after a release; after anything else hold or raise, and never close. */
  predicate MayClose(o: Outcome)
  {
    o.Got? && o.decision.release
  }

  // The system

  datatype Phase = Working | Waiting(report: Report, outcome: Outcome)

  /** `idle[r]`: the device of rank `r` has been quiesced, or it never had a buffer. */
  datatype State = State(
    phase: map<int, Phase>, idle: set<int>, closed: set<int>,
    reports: map<int, Report>, decided: Outcome, signed: set<Frame>)

  datatype Launch = Launch(id: string, caseId: string, world: nat)
  {
    ghost predicate Ours(f: Frame)
    {
      (f.ArrivalFrame? || f.DecisionFrame?) && f.launch == id && f.caseId == caseId
    }

    predicate Rank(r: int)
    {
      0 <= r < world
    }
  }

  /** Before the case ends nobody has signed anything for it; frames of other cases may be around. */
  ghost predicate Init(l: Launch, s: State)
  {
    && l.world > 0
    && (forall r :: r in s.phase <==> l.Rank(r)) && (forall r :: r in s.phase ==> s.phase[r] == Working)
    && s.closed == {} && s.reports == map[] && s.decided == Pending
    && (forall f :: f in s.signed ==> !l.Ours(f))
  }

  /** A device becomes idle: quiescing succeeded. */
  ghost predicate Quiesce(l: Launch, s: State, s': State, r: int)
  {
    l.Rank(r) && s' == s.(idle := s.idle + {r})
  }

  /** A rank enters the barrier and reports truthfully; rank 0 counts its own report, the others sign theirs. */
  ghost predicate Enter(l: Launch, s: State, s': State, r: int, report: Report)
  {
    && l.Rank(r) && r in s.phase && s.phase[r].Working? && (report.quiesced ==> r in s.idle)
    && s' == s.(phase := s.phase[r := Waiting(report, Pending)],
                reports := if r == 0 then map[0 := report] else s.reports,
                signed := if r == 0 then s.signed
                          else s.signed + {ArrivalFrame(l.id, l.caseId, r, report.quiesced, report.passed)})
  }

  /** The server reads a frame; it registers a valid arrival and drops anything else. */
  ghost predicate Accept(l: Launch, s: State, s': State, f: Frame)
  {
    && 0 in s.reports && s.decided.Pending?
    && s' == if ArrivalValid(f, l.id, l.caseId, l.world, s.reports.Keys, f in s.signed)
             then s.(reports := s.reports[f.rank := Report(f.quiesced, f.passed)]) else s
  }

  /** All ranks have arrived: the server decides and signs the decision. */
  ghost predicate DecideStep(l: Launch, s: State, s': State)
  {
    && 0 in s.reports && s.decided.Pending? && |s.reports| == l.world
    && var d := Decide(s.reports);
      s' == s.(decided := Got(d), signed := s.signed + {DecisionFrame(l.id, l.caseId, d)})
  }

  /** The server returns its decision. */
  ghost predicate ServerReturn(l: Launch, s: State, s': State)
  {
    && 0 in s.phase && s.phase[0].Waiting? && s.phase[0].outcome.Pending? && s.decided.Got?
    && s' == s.(phase := s.phase[0 := s.phase[0].(outcome := s.decided)])
  }

  /** A client reads a frame: a valid decision is returned, anything else raises. */
  ghost predicate ClientReceive(l: Launch, s: State, s': State, r: int, f: Frame)
  {
    && r != 0 && r in s.phase && s.phase[r].Waiting? && s.phase[r].outcome.Pending?
    && var o := if DecisionValid(f, l.id, l.caseId, f in s.signed) then Got(f.decision) else Raised;
      s' == s.(phase := s.phase[r := s.phase[r].(outcome := o)])
  }

  /** Any rank, the server included, may time out or lose its peers for good. */
  ghost predicate Fail(l: Launch, s: State, s': State, r: int)
  {
    && r in s.phase && s.phase[r].Waiting? && s.phase[r].outcome.Pending?
    && s' == s.(phase := s.phase[r := s.phase[r].(outcome := Raised)])
  }

  ghost predicate Close(l: Launch, s: State, s': State, r: int)
  {
    && r in s.phase && s.phase[r].Waiting? && MayClose(s.phase[r].outcome)
    && s' == s.(closed := s.closed + {r})
  }

  /** Ranks of other cases, or of other launches with the same secret, sign frames of their own. */
  ghost predicate Foreign(l: Launch, s: State, s': State, f: Frame)
  {
    !l.Ours(f) && s' == s.(signed := s.signed + {f})
  }

  ghost predicate Step(l: Launch, s: State, s': State)
  {
    || (exists r :: Quiesce(l, s, s', r))
    || (exists r, report :: Enter(l, s, s', r, report))
    || (exists f :: Accept(l, s, s', f))
    || DecideStep(l, s, s')
    || ServerReturn(l, s, s')
    || (exists r, f :: ClientReceive(l, s, s', r, f))
    || (exists r :: Fail(l, s, s', r))
    || (exists r :: Close(l, s, s', r))
    || (exists f :: Foreign(l, s, s', f))
  }

  ghost predicate Run(l: Launch, run: seq<State>)
  {
    |run| > 0 && Init(l, run[0]) && forall i :: 0 <= i < |run| - 1 ==> Step(l, run[i], run[i + 1])
  }

  // What every run keeps

  /** Rank `r` has entered the barrier with this report, and a claim to be quiesced is true. */
  ghost predicate Reported(l: Launch, s: State, r: int, report: Report)
  {
    l.Rank(r) && r in s.phase && s.phase[r].Waiting? && s.phase[r].report == report && (report.quiesced ==> r in s.idle)
  }

  /** Signed frames of this case tell the truth. */
  ghost predicate Truthful(l: Launch, s: State, f: Frame)
  {
    match f
    case ArrivalFrame(_, _, r, quiesced, passed) => Reported(l, s, r, Report(quiesced, passed))
    case DecisionFrame(_, _, d) => s.decided == Got(d)
    case Malformed => true
  }

  /** The decision is that of all ranks' reports. */
  ghost predicate Settled(l: Launch, s: State)
  {
    && (forall r :: r in s.reports <==> l.Rank(r))
    && s.decided == Got(Decide(s.reports))
  }

  ghost predicate Inv(l: Launch, s: State)
  {
    && l.world > 0
    && (forall r :: r in s.phase <==> l.Rank(r))
    && (forall r :: r in s.reports ==> Reported(l, s, r, s.reports[r]))
    && (s.reports == map[] || 0 in s.reports)
    && (forall f :: f in s.signed && l.Ours(f) ==> Truthful(l, s, f))
    && (s.decided.Pending? || Settled(l, s))
    && (forall r :: r in s.phase && s.phase[r].Waiting? && s.phase[r].outcome.Got? ==> s.phase[r].outcome == s.decided)
    && (forall r :: r in s.closed ==> r in s.phase && s.phase[r].Waiting? && MayClose(s.phase[r].outcome))
  }

  lemma {:induction false} InitInv(l: Launch, s: State)
    requires Init(l, s)
    ensures Inv(l, s)
  {
  }

  lemma {:induction false} EnterInv(l: Launch, s: State, s': State, r: int, report: Report)
    requires Inv(l, s) && Enter(l, s, s', r, report)
    ensures Inv(l, s')
  {
    forall q, rep | Reported(l, s, q, rep)
      ensures Reported(l, s', q, rep)
    {
    }
    assert Reported(l, s', r, report);
  }

  lemma {:induction false} AcceptInv(l: Launch, s: State, s': State, f: Frame)
    requires Inv(l, s) && Accept(l, s, s', f)
    ensures Inv(l, s')
  {
    if s' != s {
      assert Truthful(l, s, f);
    }
    forall q, rep | Reported(l, s, q, rep)
      ensures Reported(l, s', q, rep)
    {
    }
  }

  /** Reports for as many ranks as there are cover all of them. */
  lemma {:induction false} AllReported(l: Launch, s: State)
    requires Inv(l, s) && |s.reports| == l.world
    ensures forall r :: r in s.reports <==> l.Rank(r)
  {
    RanksCovered(s.reports.Keys, l.world);
    assert |s.reports.Keys| == |s.reports|;
  }

  lemma {:induction false} RanksCovered(keys: set<int>, n: nat)
    requires keys <= Interval(0, n)
    ensures |keys| <= n
    ensures |keys| == n ==> keys == Interval(0, n)
    ensures |keys| < n ==> exists r :: 0 <= r < n && r !in keys
  {
    var rest := Interval(0, n) - keys;
    assert Interval(0, n) == keys + rest;
    assert |rest| == n - |keys|;
    if rest != {} {
      var r :| r in rest;
      assert 0 <= r < n && r !in keys;
    }
  }

  lemma {:induction false} DecideInv(l: Launch, s: State, s': State)
    requires Inv(l, s) && DecideStep(l, s, s')
    ensures Inv(l, s')
  {
    AllReported(l, s);
    forall q, rep | Reported(l, s, q, rep)
      ensures Reported(l, s', q, rep)
    {
    }
    forall f | f in s'.signed && l.Ours(f)
      ensures Truthful(l, s', f)
    {
      if f in s.signed {
        assert Truthful(l, s, f);
      }
    }
  }

  lemma {:induction false} LocalInv(l: Launch, s: State, s': State, r: int)
    requires Inv(l, s) && (ServerReturn(l, s, s') || Fail(l, s, s', r) || Close(l, s, s', r) || Quiesce(l, s, s', r))
    ensures Inv(l, s')
  {
    forall q, rep | Reported(l, s, q, rep)
      ensures Reported(l, s', q, rep)
    {
    }
    forall f | f in s.signed && l.Ours(f)
      ensures Truthful(l, s', f)
    {
      assert Truthful(l, s, f);
    }
  }

  lemma {:induction false} ReceiveInv(l: Launch, s: State, s': State, r: int, f: Frame)
    requires Inv(l, s) && (ClientReceive(l, s, s', r, f) || Foreign(l, s, s', f))
    ensures Inv(l, s')
  {
    forall q, rep | Reported(l, s, q, rep)
      ensures Reported(l, s', q, rep)
    {
    }
    forall g | g in s.signed && l.Ours(g)
      ensures Truthful(l, s', g)
    {
      assert Truthful(l, s, g);
    }
    if f in s.signed && l.Ours(f) {
      assert Truthful(l, s, f);
    }
  }

  lemma {:induction false} StepInv(l: Launch, s: State, s': State)
    requires Inv(l, s) && Step(l, s, s')
    ensures Inv(l, s')
  {
    if DecideStep(l, s, s') {
      DecideInv(l, s, s');
    } else if ServerReturn(l, s, s') {
      LocalInv(l, s, s', 0);
    } else if r, report :| Enter(l, s, s', r, report) {
      EnterInv(l, s, s', r, report);
    } else if f :| Accept(l, s, s', f) {
      AcceptInv(l, s, s', f);
    } else if r :| Fail(l, s, s', r) || Close(l, s, s', r) || Quiesce(l, s, s', r) {
      LocalInv(l, s, s', r);
    } else if r, f :| ClientReceive(l, s, s', r, f) {
      ReceiveInv(l, s, s', r, f);
    } else {
      var f :| Foreign(l, s, s', f);
      ReceiveInv(l, s, s', 0, f);
    }
  }

  lemma {:induction false} RunInv(l: Launch, run: seq<State>, i: nat)
    requires Run(l, run) && i < |run|
    ensures Inv(l, run[i])
  {
    if i == 0 {
      InitInv(l, run[0]);
    } else {
      RunInv(l, run, i - 1);
      StepInv(l, run[i - 1], run[i]);
    }
  }

  // Safety over whole runs

  ghost predicate Returned(s: State, r: int, d: Decision)
  {
    r in s.phase && s.phase[r].Waiting? && s.phase[r].outcome == Got(d)
  }

  /** Nothing a rank has returned, closed or quiesced is ever taken back. */
  lemma {:induction false} ReturnedStays(l: Launch, run: seq<State>, i: nat, j: nat, r: int, d: Decision)
    requires Run(l, run) && i <= j < |run| && Returned(run[i], r, d)
    ensures Returned(run[j], r, d)
  {
    if i < j {
      ReturnedStays(l, run, i, j - 1, r, d);
      assert Step(l, run[j - 1], run[j]);
    }
  }

  lemma {:induction false} StepKeepsReport(l: Launch, s: State, s': State, r: int)
    requires Inv(l, s) && Step(l, s, s') && r in s.reports
    ensures r in s'.reports && s'.reports[r] == s.reports[r]
  {
    assert 0 in s.reports && Reported(l, s, 0, s.reports[0]);
  }

  /**
   A rank registers once: whatever arrivals come later, authentic ones of the same rank
   included, its first report stays. A client that reconnects is not heard again.
   */
  lemma {:induction false} FirstReportCounts(l: Launch, run: seq<State>, i: nat, j: nat, r: int)
    requires Run(l, run) && i <= j < |run| && r in run[i].reports
    ensures r in run[j].reports && run[j].reports[r] == run[i].reports[r]
  {
    if i < j {
      FirstReportCounts(l, run, i, j - 1, r);
      NextKeepsReport(l, run, j - 1, r);
    }
  }

  lemma {:induction false} NextKeepsReport(l: Launch, run: seq<State>, i: nat, r: int)
    requires Run(l, run) && i + 1 < |run| && r in run[i].reports
    ensures r in run[i + 1].reports && run[i + 1].reports[r] == run[i].reports[r]
  {
    RunInv(l, run, i);
    StepKeepsReport(l, run[i], run[i + 1], r);
  }

  /** All ranks that return a decision, at whatever points of the run, return the same one. */
  lemma {:induction false} Agreement(l: Launch, run: seq<State>, i: nat, j: nat, p: int, q: int, d: Decision, e: Decision)
    requires Run(l, run) && i < |run| && j < |run| && Returned(run[i], p, d) && Returned(run[j], q, e)
    ensures d == e
  {
    var k := if i < j then j else i;
    ReturnedStays(l, run, i, k, p, d);
    ReturnedStays(l, run, j, k, q, e);
    RunInv(l, run, k);
  }

  /**
   A decision that releases means that every rank has entered the barrier with an
   idle device; it aborts exactly when some rank has not passed. A decision that
   does not release always aborts, and some rank did report that it is not quiesced.
   */
  lemma {:induction false} DecisionMeans(l: Launch, run: seq<State>, i: nat, p: int, d: Decision)
    requires Run(l, run) && i < |run| && Returned(run[i], p, d)
    ensures forall r :: l.Rank(r) ==> r in run[i].phase && run[i].phase[r].Waiting?
    ensures d.release <==> forall r :: l.Rank(r) ==> run[i].phase[r].report.quiesced
    ensures d.release ==> forall r :: l.Rank(r) ==> r in run[i].idle
    ensures d.abort <==> exists r :: l.Rank(r) && !(run[i].phase[r].report.quiesced && run[i].phase[r].report.passed)
  {
    RunInv(l, run, i);
    var s := run[i];
    forall r | l.Rank(r)
      ensures r in s.reports && Reported(l, s, r, s.reports[r])
    {
    }
  }

  /** No rank closes its buffer before every rank is quiesced. */
  lemma {:induction false} NoEarlyClose(l: Launch, run: seq<State>, i: nat, p: int)
    requires Run(l, run) && i < |run| && p in run[i].closed
    ensures forall r :: l.Rank(r) ==> r in run[i].idle
  {
    RunInv(l, run, i);
    DecisionMeans(l, run, i, p, run[i].phase[p].outcome.decision);
  }

  /** With a single rank there is no server; its answer is the server's decision on its own report. */
  lemma {:induction false} SoleRankDecision(report: Report)
    ensures Decide(map[0 := report]) == Decision(report.quiesced, !report.passed || !report.quiesced)
  {
    var reports := map[0 := report];
    assert reports[0] == report;
  }

  // The two loops

  /** What the server reads from one accepted connection, and whether its digest is right. */
  datatype Message = Message(frame: Frame, authenticated: bool)

  /** An authentic arrival of rank `r` for this case. */
  predicate ArrivalOf(l: Launch, m: Message, r: int)
  {
    m.frame.ArrivalFrame? && m.frame.launch == l.id && m.frame.caseId == l.caseId && m.frame.rank == r && m.authenticated
  }

  /** The report in the first authentic arrival of rank `r` among the first `n` messages. */
  function FirstReport(l: Launch, inbox: seq<Message>, r: int, n: nat): Option<Report>
    requires n <= |inbox|
  {
    if n == 0 then None
    else if FirstReport(l, inbox, r, n - 1).Some? then FirstReport(l, inbox, r, n - 1)
    else if ArrivalOf(l, inbox[n - 1], r) then Some(Report(inbox[n - 1].frame.quiesced, inbox[n - 1].frame.passed))
    else None
  }

  lemma {:induction false} FirstReportStays(l: Launch, inbox: seq<Message>, r: int, m: nat, n: nat)
    requires m <= n <= |inbox| && FirstReport(l, inbox, r, m).Some?
    ensures FirstReport(l, inbox, r, n) == FirstReport(l, inbox, r, m)
  {
    if m < n {
      FirstReportStays(l, inbox, r, m, n - 1);
    }
  }

  /** The reports the server should end up with: its own and every client's first. */
  ghost predicate Collected(l: Launch, own: Report, inbox: seq<Message>, n: nat, reports: map<int, Report>)
    requires n <= |inbox|
  {
    && (forall r :: r in reports ==> l.Rank(r))
    && 0 in reports && reports[0] == own
    && (forall r :: 0 < r < l.world ==>
      if r in reports then FirstReport(l, inbox, r, n) == Some(reports[r]) else FirstReport(l, inbox, r, n).None?)
  }

  /** Reports of all ranks settle the outcome, however many messages follow. */
  lemma {:induction false} CollectedAll(l: Launch, own: Report, inbox: seq<Message>, n: nat, reports: map<int, Report>)
    requires n <= |inbox| && Collected(l, own, inbox, n, reports) && |reports| == l.world
    ensures Collected(l, own, inbox, |inbox|, reports)
    ensures forall r :: 0 < r < l.world ==> FirstReport(l, inbox, r, |inbox|).Some?
  {
    assert |reports.Keys| == |reports|;
    RanksCovered(reports.Keys, l.world);
    forall r | 0 < r < l.world
      ensures r in reports && FirstReport(l, inbox, r, |inbox|) == Some(reports[r])
    {
      FirstReportStays(l, inbox, r, n, |inbox|);
    }
  }

  /** Too few reports leave some rank without an authentic arrival. */
  lemma {:induction false} CollectedTooFew(l: Launch, own: Report, inbox: seq<Message>, reports: map<int, Report>)
    requires Collected(l, own, inbox, |inbox|, reports) && |reports| < l.world
    ensures exists r :: 0 < r < l.world && FirstReport(l, inbox, r, |inbox|).None?
  {
    assert |reports.Keys| == |reports|;
    RanksCovered(reports.Keys, l.world);
    var r :| 0 <= r < l.world && r !in reports.Keys;
    assert FirstReport(l, inbox, r, |inbox|).None?;
  }

  lemma {:induction false} AtMostAll(l: Launch, own: Report, inbox: seq<Message>, n: nat, reports: map<int, Report>)
    requires n <= |inbox| && Collected(l, own, inbox, n, reports)
    ensures |reports| <= l.world
  {
    assert |reports.Keys| == |reports|;
    RanksCovered(reports.Keys, l.world);
  }

  /**
   The accept loop. It decides exactly when every other rank has sent an authentic
   arrival before the time is up, and on the first such arrival of each; frames of
   other cases, repeated arrivals and garbage make no difference.
   */
  method Serve(l: Launch, own: Report, inbox: seq<Message>) returns (d: Option<Decision>, reports: map<int, Report>)
    requires l.world > 0
    ensures d.Some? <==> forall r :: 0 < r < l.world ==> FirstReport(l, inbox, r, |inbox|).Some?
    ensures Collected(l, own, inbox, |inbox|, reports)
    ensures d.Some? ==> d.value == Decide(reports)
  {
    reports := map[0 := own];
    var i := 0;
    while |reports| < l.world && i < |inbox|
      invariant i <= |inbox| && Collected(l, own, inbox, i, reports)
      decreases |inbox| - i
    {
      var m := inbox[i];
      if ArrivalValid(m.frame, l.id, l.caseId, l.world, reports.Keys, m.authenticated) {
        reports := reports[m.frame.rank := Report(m.frame.quiesced, m.frame.passed)];
      }
      i := i + 1;
    }
    AtMostAll(l, own, inbox, i, reports);
    if |reports| < l.world {
      CollectedTooFew(l, own, inbox, reports);
      return None, reports;
    }
    CollectedAll(l, own, inbox, i, reports);
    return Some(Decide(reports)), reports;
  }

  /** One attempt of a client: the connection is lost, or it answers. */
  datatype Attempt = Lost | Answered(message: Message)

  /** Attempts before `n` were all lost. */
  predicate LostBefore(attempts: seq<Attempt>, n: nat)
  {
    n <= |attempts| && forall k :: 0 <= k < n ==> attempts[k].Lost?
  }

  ghost predicate FirstAnswer(attempts: seq<Attempt>, m: Message)
  {
    exists n :: 0 <= n < |attempts| && LostBefore(attempts, n) && attempts[n] == Answered(m)
  }

  /**
   The retry loop. The first answer settles it: an authentic decision for this
   case is returned as it is, any other answer raises; without an answer before
   the deadline it raises too.
   */
  method AwaitDecision(l: Launch, attempts: seq<Attempt>) returns (o: Outcome)
    ensures o.Got? || o.Raised?
    ensures o.Got? ==> FirstAnswer(attempts, Message(DecisionFrame(l.id, l.caseId, o.decision), true))
    ensures o.Raised? ==>
      forall m :: FirstAnswer(attempts, m) ==> !DecisionValid(m.frame, l.id, l.caseId, m.authenticated)
  {
    for i := 0 to |attempts|
      invariant LostBefore(attempts, i)
    {
      if attempts[i].Answered? {
        var m := attempts[i].message;
        if !DecisionValid(m.frame, l.id, l.caseId, m.authenticated) {
          return Raised;
        }
        return Got(m.frame.decision);
      }
    }
    return Raised;
  }

  // The end of a case

  /** What teardown meets: the resources a rank holds and which of its steps succeed. */
  datatype Ending = Ending(
    hasBuffer: bool, hasContext: bool, quiesceOk: bool, pendingOk: bool, casePassed: bool, closeOk: bool)

  /** How the end of a case leaves the rank: buffer closed, held or raised without closing, and failed or not. */
  datatype Left = Left(closed: bool, held: bool, failed: bool)

  /**
   The `finally` block of a case. The rank reports itself quiesced exactly when it
   has no buffer or quiescing it succeeded, even if a pending error shows up right
   after. It touches its resources again only after a release, and a rank that
   passed everything still fails when the decision is to abort.
   */
  method FinishCase(e: Ending, barrier: Report -> Outcome) returns (report: Report, left: Left)
    ensures report.quiesced <==> !e.hasBuffer || e.quiesceOk
    ensures report.passed <==> e.casePassed && (e.hasBuffer ==> e.quiesceOk && e.pendingOk)
    ensures left.held <==> !MayClose(barrier(report))
    ensures left.closed <==> MayClose(barrier(report)) && (e.hasBuffer || e.hasContext) && e.closeOk
    ensures !left.failed <==>
      && report.passed && MayClose(barrier(report)) && !barrier(report).decision.abort
      && (e.hasBuffer || e.hasContext ==> e.closeOk)
  {
    var failed := !e.casePassed;
    var quiesced := !e.hasBuffer;
    if e.hasBuffer {
      if e.quiesceOk {
        quiesced := true;
      }
      if !e.quiesceOk || !e.pendingOk {
        failed := true;
      }
    }
    report := Report(quiesced, !failed);
    var outcome := barrier(report);
    if !outcome.Got? {
      return report, Left(false, true, true);
    }
    if !outcome.decision.release {
      return report, Left(false, true, true);
    }
    if outcome.decision.abort && report.passed {
      failed := true;
    }
    var closed := false;
    if e.hasBuffer || e.hasContext {
      if e.closeOk {
        closed := true;
      } else {
        failed := true;
      }
    }
    left := Left(closed, false, failed);
  }
}
