/** The press load generator: tasks under a semaphore that share sample vectors, counters and a
    capped error list, and the percentiles computed when all of them are done. */
module Press {
  import opened Wire
  import opened Sums
  import opened Ordering
  import opened Percentiles

  // ----- Tasks -----

  /** How a request ends. Durations are exact nanoseconds. */
  datatype Outcome = Success(firstByteNs: nat, totalNs: nat) | Failed(error: string)

  /** Where a task stands; each name is the atomic step it takes next. */
  datatype Pc = Acquire | Request | PushTtfb | PushTotal | CountSuccess | CountError | PushError | Release | Done

  datatype Config = Config(concurrency: nat, outcomes: seq<Outcome>)

  datatype State = State(pcs: seq<Pc>, permits: nat, ttfb: seq<real>, total: seq<real>,
                         successes: nat, failures: nat, errors: seq<string>)

  const MAX_ERRORS := 50

  function Ms(ns: nat): real { ns as real / 1_000_000_000.0 * 1000.0 }

  function Init(cfg: Config): State {
    State(seq(|cfg.outcomes|, _ => Acquire), cfg.concurrency, [], [], 0, 0, [])
  }

  /** Where a task goes next. */
  function Next(pc: Pc, o: Outcome): Pc {
    match pc
    case Acquire => Request
    case Request => if o.Success? then PushTtfb else CountError
    case PushTtfb => PushTotal
    case PushTotal => CountSuccess
    case CountSuccess => Release
    case CountError => PushError
    case PushError => Release
    case Release => Done
    case Done => Done
  }

  /** One atomic step of task `i`: taking or returning a permit, the request itself, one push
      under one lock, or one counter increment. */
  function Step(cfg: Config, st: State, i: nat): Option<State>
    requires |st.pcs| == |cfg.outcomes|
  {
    if i >= |st.pcs| then None
    else
      var pc, o := st.pcs[i], cfg.outcomes[i];
      var st' := st.(pcs := st.pcs[i := Next(pc, o)]);
      match pc
      case Acquire => if st.permits > 0 then Some(st'.(permits := st.permits - 1)) else None
      case Request => Some(st')
      case PushTtfb => if o.Success? then Some(st'.(ttfb := st.ttfb + [Ms(o.firstByteNs)])) else None
      case PushTotal => if o.Success? then Some(st'.(total := st.total + [Ms(o.totalNs)])) else None
      case CountSuccess => Some(st'.(successes := st.successes + 1))
      case CountError => Some(st'.(failures := st.failures + 1))
      case PushError =>
        if o.Success? then None
        else Some(st'.(errors := if |st.errors| < MAX_ERRORS then st.errors + [o.error] else st.errors))
      case Release => Some(st'.(permits := st.permits + 1))
      case Done => None
  }

  /** The state after the tasks named in `schedule` stepped in that order. */
  function Run(cfg: Config, schedule: seq<nat>): (r: Option<State>)
    ensures r.Some? ==> |r.value.pcs| == |cfg.outcomes|
  {
    if schedule == [] then Some(Init(cfg))
    else
      match Run(cfg, schedule[..|schedule| - 1])
      case None => None
      case Some(st) => Step(cfg, st, schedule[|schedule| - 1])
  }

  // ----- Totals over all tasks -----

  /** What all tasks together contribute, `w` giving the share of one task. */
  function Count(w: (Pc, Outcome) -> nat, pcs: seq<Pc>, os: seq<Outcome>): nat
    requires |pcs| == |os|
  {
    if pcs == [] then 0
    else Count(w, pcs[..|pcs| - 1], os[..|os| - 1]) + w(pcs[|pcs| - 1], os[|os| - 1])
  }

  /** The values of the tasks for which `has` holds. */
  function Gather<T>(has: (Pc, Outcome) -> bool, value: Outcome -> T, pcs: seq<Pc>, os: seq<Outcome>): multiset<T>
    requires |pcs| == |os|
  {
    if pcs == [] then multiset{}
    else
      var rest := Gather(has, value, pcs[..|pcs| - 1], os[..|os| - 1]);
      if has(pcs[|pcs| - 1], os[|os| - 1]) then rest + multiset{value(os[|os| - 1])} else rest
  }

  lemma {:induction false} CountUpdate(w: (Pc, Outcome) -> nat, pcs: seq<Pc>, os: seq<Outcome>, i: nat, pc: Pc)
    requires |pcs| == |os| && i < |pcs|
    ensures Count(w, pcs[i := pc], os) + w(pcs[i], os[i]) == Count(w, pcs, os) + w(pc, os[i])
  {
    var n := |pcs| - 1;
    if i == n {
      assert pcs[i := pc][..n] == pcs[..n];
    } else {
      CountUpdate(w, pcs[..n], os[..n], i, pc);
      assert pcs[i := pc][..n] == pcs[..n][i := pc];
    }
  }

  lemma Shuffle<T>(a: multiset<T>, b: multiset<T>, c: multiset<T>)
    ensures (a + b) + c == (a + c) + b
  {
  }

  /** A task that moves on keeps its value out, keeps it in, or puts it in. */
  lemma {:induction false} GatherUpdate<T>(has: (Pc, Outcome) -> bool, value: Outcome -> T,
                                           pcs: seq<Pc>, os: seq<Outcome>, i: nat, pc: Pc)
    requires |pcs| == |os| && i < |pcs| && (has(pcs[i], os[i]) ==> has(pc, os[i]))
    ensures Gather(has, value, pcs[i := pc], os) ==
            if has(pc, os[i]) && !has(pcs[i], os[i]) then Gather(has, value, pcs, os) + multiset{value(os[i])}
            else Gather(has, value, pcs, os)
  {
    var n := |pcs| - 1;
    if i == n {
      assert pcs[i := pc][..n] == pcs[..n];
    } else {
      GatherUpdate(has, value, pcs[..n], os[..n], i, pc);
      assert pcs[i := pc][..n] == pcs[..n][i := pc];
      Shuffle(Gather(has, value, pcs[..n], os[..n]), multiset{value(os[i])}, multiset{value(os[n])});
    }
  }

  lemma {:induction false} CountMono(w: (Pc, Outcome) -> nat, v: (Pc, Outcome) -> nat, pcs: seq<Pc>, os: seq<Outcome>)
    requires |pcs| == |os|
    requires forall k :: 0 <= k < |pcs| ==> w(pcs[k], os[k]) <= v(pcs[k], os[k])
    ensures Count(w, pcs, os) <= Count(v, pcs, os)
  {
    if pcs != [] {
      CountMono(w, v, pcs[..|pcs| - 1], os[..|os| - 1]);
    }
  }

  function One(b: bool): nat { if b then 1 else 0 }

  predicate HasTtfb(pc: Pc, o: Outcome) { o.Success? && (pc.PushTotal? || HasTotal(pc, o)) }
  predicate HasTotal(pc: Pc, o: Outcome) { o.Success? && (pc.CountSuccess? || pc.Release? || pc.Done?) }
  predicate HasTold(pc: Pc, o: Outcome) { o.Failed? && (pc.Release? || pc.Done?) }

  function Running(pc: Pc, o: Outcome): nat { One(!pc.Acquire? && !pc.Done?) }
  function Timed(pc: Pc, o: Outcome): nat { One(HasTtfb(pc, o)) }
  function Totalled(pc: Pc, o: Outcome): nat { One(HasTotal(pc, o)) }
  function Succeeded(pc: Pc, o: Outcome): nat { One(o.Success? && (pc.Release? || pc.Done?)) }
  function Erred(pc: Pc, o: Outcome): nat { One(o.Failed? && (pc.PushError? || pc.Release? || pc.Done?)) }
  function Told(pc: Pc, o: Outcome): nat { One(HasTold(pc, o)) }

  function TtfbMs(o: Outcome): real { if o.Success? then Ms(o.firstByteNs) else 0.0 }
  function TotalMs(o: Outcome): real { if o.Success? then Ms(o.totalNs) else 0.0 }
  function ErrorText(o: Outcome): string { if o.Failed? then o.error else "" }

  // ----- The invariant -----

  predicate PcFits(pc: Pc, o: Outcome) {
    && (pc.PushTtfb? || pc.PushTotal? || pc.CountSuccess? ==> o.Success?)
    && (pc.CountError? || pc.PushError? ==> o.Failed?)
  }

  ghost predicate Fits(cfg: Config, st: State) {
    && |st.pcs| == |cfg.outcomes|
    && forall i :: 0 <= i < |st.pcs| ==> PcFits(st.pcs[i], cfg.outcomes[i])
  }

  ghost predicate CountsOk(cfg: Config, st: State)
    requires |st.pcs| == |cfg.outcomes|
  {
    && st.permits + Count(Running, st.pcs, cfg.outcomes) == cfg.concurrency
    && |st.ttfb| == Count(Timed, st.pcs, cfg.outcomes)
    && |st.total| == Count(Totalled, st.pcs, cfg.outcomes)
    && st.successes == Count(Succeeded, st.pcs, cfg.outcomes)
    && st.failures == Count(Erred, st.pcs, cfg.outcomes)
    && |st.errors| == Min(MAX_ERRORS, Count(Told, st.pcs, cfg.outcomes))
  }

  ghost predicate SamplesOk(cfg: Config, st: State)
    requires |st.pcs| == |cfg.outcomes|
  {
    && multiset(st.ttfb) == Gather(HasTtfb, TtfbMs, st.pcs, cfg.outcomes)
    && multiset(st.total) == Gather(HasTotal, TotalMs, st.pcs, cfg.outcomes)
  }

  /** The error list holds messages of failed requests, all of them while they fit. */
  ghost predicate ErrorsOk(cfg: Config, st: State)
    requires |st.pcs| == |cfg.outcomes|
  {
    && multiset(st.errors) <= Gather(HasTold, ErrorText, st.pcs, cfg.outcomes)
    && (Count(Told, st.pcs, cfg.outcomes) <= MAX_ERRORS ==>
          multiset(st.errors) == Gather(HasTold, ErrorText, st.pcs, cfg.outcomes))
  }

  ghost predicate Inv(cfg: Config, st: State) {
    Fits(cfg, st) && CountsOk(cfg, st) && SamplesOk(cfg, st) && ErrorsOk(cfg, st)
  }

  lemma StepKeepsCounts(cfg: Config, st: State, i: nat)
    requires Fits(cfg, st) && CountsOk(cfg, st) && Step(cfg, st, i).Some?
    ensures Fits(cfg, Step(cfg, st, i).value) && CountsOk(cfg, Step(cfg, st, i).value)
  {
    hide Count;
    var os, pcs, pc := cfg.outcomes, st.pcs, Next(st.pcs[i], cfg.outcomes[i]);
    CountUpdate(Running, pcs, os, i, pc);
    CountUpdate(Timed, pcs, os, i, pc);
    CountUpdate(Totalled, pcs, os, i, pc);
    CountUpdate(Succeeded, pcs, os, i, pc);
    CountUpdate(Erred, pcs, os, i, pc);
    CountUpdate(Told, pcs, os, i, pc);
  }

  lemma Appended<T>(s: seq<T>, x: T)
    ensures multiset(s + [x]) == multiset(s) + multiset{x}
  {
  }

  /** Only the pushing steps put a value in. */
  lemma Pushes(pc: Pc, o: Outcome)
    requires PcFits(pc, o)
    ensures HasTtfb(Next(pc, o), o) <==> HasTtfb(pc, o) || pc.PushTtfb?
    ensures HasTotal(Next(pc, o), o) <==> HasTotal(pc, o) || pc.PushTotal?
    ensures HasTold(Next(pc, o), o) <==> HasTold(pc, o) || pc.PushError?
    ensures pc.PushTtfb? ==> !HasTtfb(pc, o)
    ensures pc.PushTotal? ==> !HasTotal(pc, o)
    ensures pc.PushError? ==> !HasTold(pc, o)
  {
  }

  lemma StepKeepsSamples(cfg: Config, st: State, i: nat)
    requires Fits(cfg, st) && SamplesOk(cfg, st) && Step(cfg, st, i).Some?
    ensures SamplesOk(cfg, Step(cfg, st, i).value)
  {
    hide Gather, HasTtfb, HasTotal, Next, PcFits, Ms;
    var os, pcs, pc, o := cfg.outcomes, st.pcs, st.pcs[i], cfg.outcomes[i];
    Pushes(pc, o);
    GatherUpdate(HasTtfb, TtfbMs, pcs, os, i, Next(pc, o));
    GatherUpdate(HasTotal, TotalMs, pcs, os, i, Next(pc, o));
    if pc.PushTtfb? { Appended(st.ttfb, Ms(o.firstByteNs)); }
    if pc.PushTotal? { Appended(st.total, Ms(o.totalNs)); }
  }

  lemma StepKeepsErrors(cfg: Config, st: State, i: nat)
    requires Fits(cfg, st) && CountsOk(cfg, st) && ErrorsOk(cfg, st) && Step(cfg, st, i).Some?
    ensures ErrorsOk(cfg, Step(cfg, st, i).value)
  {
    hide Gather, Count, HasTold, Next, PcFits, Ms;
    var os, pcs, pc, o := cfg.outcomes, st.pcs, st.pcs[i], cfg.outcomes[i];
    Pushes(pc, o);
    CountUpdate(Told, pcs, os, i, Next(pc, o));
    GatherUpdate(HasTold, ErrorText, pcs, os, i, Next(pc, o));
    if pc.PushError? { Appended(st.errors, o.error); }
  }

  lemma StepKeepsInv(cfg: Config, st: State, i: nat)
    requires Inv(cfg, st) && Step(cfg, st, i).Some?
    ensures Inv(cfg, Step(cfg, st, i).value)
  {
    hide CountsOk, SamplesOk, ErrorsOk;
    StepKeepsCounts(cfg, st, i);
    StepKeepsSamples(cfg, st, i);
    StepKeepsErrors(cfg, st, i);
  }

  lemma {:induction false} NothingYet(os: seq<Outcome>, pcs: seq<Pc>)
    requires |pcs| == |os| && forall i :: 0 <= i < |pcs| ==> pcs[i] == Acquire
    ensures Count(Running, pcs, os) == Count(Timed, pcs, os) == Count(Totalled, pcs, os) == 0
    ensures Count(Succeeded, pcs, os) == Count(Erred, pcs, os) == Count(Told, pcs, os) == 0
    ensures Gather(HasTtfb, TtfbMs, pcs, os) == Gather(HasTotal, TotalMs, pcs, os) == multiset{}
    ensures Gather(HasTold, ErrorText, pcs, os) == multiset{}
  {
    if pcs != [] {
      NothingYet(os[..|os| - 1], pcs[..|pcs| - 1]);
    }
  }

  lemma {:induction false} RunKeepsInv(cfg: Config, schedule: seq<nat>)
    requires Run(cfg, schedule).Some?
    ensures Inv(cfg, Run(cfg, schedule).value)
  {
    if schedule == [] {
      NothingYet(cfg.outcomes, Init(cfg).pcs);
    } else {
      var before := schedule[..|schedule| - 1];
      RunKeepsInv(cfg, before);
      StepKeepsInv(cfg, Run(cfg, before).value, schedule[|schedule| - 1]);
    }
  }

  /** In every reachable state the permits are conserved, the counters and vectors are ordered
      as the pushes are, and the error list keeps its cap. */
  lemma EveryState(cfg: Config, schedule: seq<nat>)
    requires Run(cfg, schedule).Some?
    ensures var st := Run(cfg, schedule).value;
            && st.permits + Count(Running, st.pcs, cfg.outcomes) == cfg.concurrency
            && st.successes <= |st.total| <= |st.ttfb|
            && |st.errors| <= Min(50, st.failures)
  {
    RunKeepsInv(cfg, schedule);
    var st := Run(cfg, schedule).value;
    CountMono(Succeeded, Totalled, st.pcs, cfg.outcomes);
    CountMono(Totalled, Timed, st.pcs, cfg.outcomes);
    CountMono(Told, Erred, st.pcs, cfg.outcomes);
  }

  // ----- Termination -----

  /** The steps a task has left. */
  function Left(pc: Pc, o: Outcome): nat {
    match pc
    case Acquire => if o.Success? then 6 else 5
    case Request => if o.Success? then 5 else 4
    case PushTtfb => 4
    case PushTotal => 3
    case CountSuccess => 2
    case CountError => 3
    case PushError => 2
    case Release => 1
    case Done => 0
  }

  /** Every run that has taken `k` steps has `k` fewer left, so no run is longer than the first
      state allows. */
  lemma {:induction false} StepsAreNumbered(cfg: Config, schedule: seq<nat>)
    requires Run(cfg, schedule).Some?
    ensures |schedule| + Count(Left, Run(cfg, schedule).value.pcs, cfg.outcomes)
            == Count(Left, Init(cfg).pcs, cfg.outcomes)
  {
    if schedule != [] {
      hide Count, Inv;
      var before := schedule[..|schedule| - 1];
      StepsAreNumbered(cfg, before);
      RunKeepsInv(cfg, before);
      OneFewer(cfg, Run(cfg, before).value, schedule[|schedule| - 1]);
    }
  }

  lemma OneFewer(cfg: Config, st: State, i: nat)
    requires Inv(cfg, st) && Step(cfg, st, i).Some?
    ensures Count(Left, Step(cfg, st, i).value.pcs, cfg.outcomes) + 1 == Count(Left, st.pcs, cfg.outcomes)
  {
    hide Count, CountsOk, SamplesOk, ErrorsOk;
    assert PcFits(st.pcs[i], cfg.outcomes[i]);
    CountUpdate(Left, st.pcs, cfg.outcomes, i, Next(st.pcs[i], cfg.outcomes[i]));
  }

  predicate AllDone(st: State) { forall i :: 0 <= i < |st.pcs| ==> st.pcs[i] == Done }

  lemma {:induction false} SomeoneRuns(pcs: seq<Pc>, os: seq<Outcome>) returns (i: nat)
    requires |pcs| == |os| && Count(Running, pcs, os) > 0
    ensures i < |pcs| && pcs[i] != Acquire && pcs[i] != Done
  {
    var n := |pcs| - 1;
    if Running(pcs[n], os[n]) > 0 {
      i := n;
    } else {
      i := SomeoneRuns(pcs[..n], os[..n]);
    }
  }

  lemma {:induction false} NobodyRuns(pcs: seq<Pc>, os: seq<Outcome>, i: nat)
    requires |pcs| == |os| && Count(Running, pcs, os) == 0 && i < |pcs|
    ensures pcs[i] == Acquire || pcs[i] == Done
  {
    if i < |pcs| - 1 {
      NobodyRuns(pcs[..|pcs| - 1], os[..|os| - 1], i);
    }
  }

  lemma NoPermitsNoSteps(cfg: Config, st: State, i: nat)
    requires Inv(cfg, st) && cfg.concurrency == 0
    ensures Step(cfg, st, i).None?
  {
    if i < |st.pcs| { NobodyRuns(st.pcs, cfg.outcomes, i); }
  }

  lemma SomeoneCanStep(cfg: Config, st: State) returns (i: nat)
    requires Inv(cfg, st) && cfg.concurrency > 0 && !AllDone(st)
    ensures Step(cfg, st, i).Some?
  {
    hide Count, SamplesOk, ErrorsOk;
    if Count(Running, st.pcs, cfg.outcomes) > 0 {
      i := SomeoneRuns(st.pcs, cfg.outcomes);
    } else {
      i :| i < |st.pcs| && st.pcs[i] != Done;
      NobodyRuns(st.pcs, cfg.outcomes, i);
    }
    assert PcFits(st.pcs[i], cfg.outcomes[i]);
  }

  /** Nothing can step exactly when every task is done, or when there are no permits at all. */
  lemma StuckExactly(cfg: Config, schedule: seq<nat>)
    requires Run(cfg, schedule).Some?
    ensures var st := Run(cfg, schedule).value;
            (forall i: nat :: Step(cfg, st, i).None?) <==> AllDone(st) || cfg.concurrency == 0
  {
    hide Inv;
    RunKeepsInv(cfg, schedule);
    var st := Run(cfg, schedule).value;
    if cfg.concurrency == 0 {
      forall i: nat
        ensures Step(cfg, st, i).None?
      {
        NoPermitsNoSteps(cfg, st, i);
      }
    } else if !AllDone(st) {
      var i := SomeoneCanStep(cfg, st);
    }
  }

  /** What was pushed stays, in the order it was pushed. */
  lemma {:induction false} NothingIsTakenBack(cfg: Config, schedule: seq<nat>, k: nat)
    requires k <= |schedule| && Run(cfg, schedule).Some?
    ensures Run(cfg, schedule[..k]).Some?
    ensures var st, st' := Run(cfg, schedule[..k]).value, Run(cfg, schedule).value;
            && st.ttfb <= st'.ttfb && st.total <= st'.total && st.errors <= st'.errors
            && st.successes <= st'.successes && st.failures <= st'.failures
  {
    hide Step;
    if k == |schedule| {
      assert schedule[..k] == schedule;
    } else {
      var before := schedule[..|schedule| - 1];
      NothingIsTakenBack(cfg, before, k);
      assert before[..k] == schedule[..k];
      StepTakesNothingBack(cfg, Run(cfg, before).value, schedule[|schedule| - 1]);
    }
  }

  lemma StepTakesNothingBack(cfg: Config, st: State, i: nat)
    requires |st.pcs| == |cfg.outcomes| && Step(cfg, st, i).Some?
    ensures var st' := Step(cfg, st, i).value;
            && st.ttfb <= st'.ttfb && st.total <= st'.total && st.errors <= st'.errors
            && st.successes <= st'.successes && st.failures <= st'.failures
  {
    hide Next, Ms;
  }

  // ----- Completed runs -----

  /** The samples of the successful requests, in request order. */
  function Ttfbs(os: seq<Outcome>): seq<real> {
    if os == [] then []
    else Ttfbs(os[..|os| - 1]) + if os[|os| - 1].Success? then [Ms(os[|os| - 1].firstByteNs)] else []
  }

  function Totals(os: seq<Outcome>): seq<real> {
    if os == [] then []
    else Totals(os[..|os| - 1]) + if os[|os| - 1].Success? then [Ms(os[|os| - 1].totalNs)] else []
  }

  function Messages(os: seq<Outcome>): seq<string> {
    if os == [] then []
    else Messages(os[..|os| - 1]) + if os[|os| - 1].Failed? then [os[|os| - 1].error] else []
  }

  /** A successful request adds its two times in milliseconds, a failed one its message. */
  lemma SamplesGrow(os: seq<Outcome>, o: Outcome)
    ensures Ttfbs([]) == [] && Totals([]) == [] && Messages([]) == []
    ensures o.Success? ==>
              && Ttfbs(os + [o]) == Ttfbs(os) + [o.firstByteNs as real / 1_000_000.0]
              && Totals(os + [o]) == Totals(os) + [o.totalNs as real / 1_000_000.0] && Messages(os + [o]) == Messages(os)
    ensures o.Failed? ==>
              && Ttfbs(os + [o]) == Ttfbs(os) && Totals(os + [o]) == Totals(os) && Messages(os + [o]) == Messages(os) + [o.error]
  {
    assert (os + [o])[..|os|] == os;
  }

  lemma {:induction false} AllCounted(os: seq<Outcome>, pcs: seq<Pc>)
    requires |pcs| == |os| && forall i :: 0 <= i < |pcs| ==> pcs[i] == Done
    ensures Count(Timed, pcs, os) == Count(Totalled, pcs, os) == Count(Succeeded, pcs, os) == |Ttfbs(os)| == |Totals(os)|
    ensures Count(Erred, pcs, os) == Count(Told, pcs, os) == |Messages(os)|
    ensures |Ttfbs(os)| + |Messages(os)| == |os|
  {
    if pcs != [] {
      AllCounted(os[..|os| - 1], pcs[..|pcs| - 1]);
    }
  }

  lemma {:induction false} AllGathered(os: seq<Outcome>, pcs: seq<Pc>)
    requires |pcs| == |os| && forall i :: 0 <= i < |pcs| ==> pcs[i] == Done
    ensures Gather(HasTtfb, TtfbMs, pcs, os) == multiset(Ttfbs(os))
    ensures Gather(HasTotal, TotalMs, pcs, os) == multiset(Totals(os))
    ensures Gather(HasTold, ErrorText, pcs, os) == multiset(Messages(os))
  {
    if pcs != [] {
      hide Ms;
      var before, o := os[..|os| - 1], os[|os| - 1];
      AllGathered(before, pcs[..|pcs| - 1]);
      if o.Success? {
        Appended(Ttfbs(before), Ms(o.firstByteNs));
        Appended(Totals(before), Ms(o.totalNs));
      } else {
        Appended(Messages(before), o.error);
      }
    }
  }

  /** What `press` returns, apart from wall-clock figures. */
  datatype PressResult = PressResult(successes: nat, failures: nat, ttfb: LatencyStats, total: LatencyStats, errors: seq<string>)

  function Summarize(st: State): PressResult {
    PressResult(st.successes, st.failures, FromSortedMs(SortOf(st.ttfb)), FromSortedMs(SortOf(st.total)), st.errors)
  }

  /** A run in which every task finished accounts for every request, and its samples are those
      of the successful requests, whatever the schedule was. */
  lemma CompletedRun(cfg: Config, schedule: seq<nat>)
    requires Run(cfg, schedule).Some? && AllDone(Run(cfg, schedule).value)
    ensures var st := Run(cfg, schedule).value;
            && st.successes + st.failures == |cfg.outcomes| && |st.ttfb| == |st.total| == st.successes
            && |st.errors| == Min(50, st.failures)
            && multiset(st.ttfb) == multiset(Ttfbs(cfg.outcomes)) && multiset(st.total) == multiset(Totals(cfg.outcomes))
            && multiset(st.errors) <= multiset(Messages(cfg.outcomes))
            && (st.failures <= 50 ==> multiset(st.errors) == multiset(Messages(cfg.outcomes)))
            && st.successes == |Ttfbs(cfg.outcomes)| && st.permits == cfg.concurrency
  {
    hide Count, Gather;
    var st := Run(cfg, schedule).value;
    RunKeepsInv(cfg, schedule);
    AllCounted(cfg.outcomes, st.pcs);
    AllGathered(cfg.outcomes, st.pcs);
    NobodyLeft(st.pcs, cfg.outcomes);
  }

  lemma {:induction false} NobodyLeft(pcs: seq<Pc>, os: seq<Outcome>)
    requires |pcs| == |os| && forall i :: 0 <= i < |pcs| ==> pcs[i] == Done
    ensures Count(Running, pcs, os) == 0
  {
    if pcs != [] {
      NobodyLeft(pcs[..|pcs| - 1], os[..|os| - 1]);
    }
  }

  /** Schedule independence: for fixed outcomes all completed runs report the same counts and
      the same summaries. */
  lemma ScheduleDoesNotMatter(cfg: Config, schedule: seq<nat>, schedule': seq<nat>)
    requires Run(cfg, schedule).Some? && AllDone(Run(cfg, schedule).value)
    requires Run(cfg, schedule').Some? && AllDone(Run(cfg, schedule').value)
    ensures var r, r' := Summarize(Run(cfg, schedule).value), Summarize(Run(cfg, schedule').value);
            && r.successes == r'.successes && r.failures == r'.failures && r.ttfb == r'.ttfb && r.total == r'.total
            && |r.errors| == |r'.errors| && (r.failures <= 50 ==> multiset(r.errors) == multiset(r'.errors))
  {
    hide Run, SortOf, FromSortedMs;
    CompletedRun(cfg, schedule);
    CompletedRun(cfg, schedule');
    SortedIsUnique(Run(cfg, schedule).value.ttfb, Run(cfg, schedule').value.ttfb);
    SortedIsUnique(Run(cfg, schedule).value.total, Run(cfg, schedule').value.total);
  }

  /** The clients measure the first byte before the end of the request. */
  predicate Plausible(cfg: Config) {
    forall o :: o in cfg.outcomes && o.Success? ==> o.firstByteNs <= o.totalNs
  }

  lemma {:induction false} FewerTotalsBelow(os: seq<Outcome>, x: real)
    requires forall o :: o in os && o.Success? ==> o.firstByteNs <= o.totalNs
    ensures CountAtMost(Totals(os), x) <= CountAtMost(Ttfbs(os), x)
  {
    if os != [] {
      var before, o := os[..|os| - 1], os[|os| - 1];
      assert os == before + [o] && o in os && forall p :: p in before ==> p in os;
      FewerTotalsBelow(before, x);
      if o.Success? {
        SumAppend(AtMost(x), Ttfbs(before), Ms(o.firstByteNs));
        SumAppend(AtMost(x), Totals(before), Ms(o.totalNs));
        assert Ms(o.firstByteNs) <= Ms(o.totalNs);
      } else {
        assert Totals(os) == Totals(before) && Ttfbs(os) == Ttfbs(before);
      }
    }
  }

  /** Order statistics: although the two vectors were filled in unrelated orders and sorted
      separately, the k-th time to first byte is at most the k-th total, and so is every figure
      reported about it. */
  lemma TtfbBelowTotal(cfg: Config, schedule: seq<nat>)
    requires Plausible(cfg) && Run(cfg, schedule).Some? && AllDone(Run(cfg, schedule).value)
    ensures var st := Run(cfg, schedule).value;
            var a, b := SortOf(st.ttfb), SortOf(st.total);
            |a| == |b| && forall k :: 0 <= k < |a| ==> a[k] <= b[k]
    ensures NoSlower(Summarize(Run(cfg, schedule).value).ttfb, Summarize(Run(cfg, schedule).value).total)
  {
    hide Run, FromSortedMs;
    var st := Run(cfg, schedule).value;
    var a, b := SortOf(st.ttfb), SortOf(st.total);
    CompletedRun(cfg, schedule);
    forall x
      ensures CountAtMost(b, x) <= CountAtMost(a, x)
    {
      FewerTotalsBelow(cfg.outcomes, x);
      SumPermutation(AtMost(x), a, Ttfbs(cfg.outcomes));
      SumPermutation(AtMost(x), b, Totals(cfg.outcomes));
    }
    RankDominance(a, b);
    SummaryDominance(a, b);
  }

  /** The two reported summaries are those of the times of the successful requests. */
  lemma SummariesMean(cfg: Config, schedule: seq<nat>)
    requires Run(cfg, schedule).Some? && AllDone(Run(cfg, schedule).value)
    ensures var r := Summarize(Run(cfg, schedule).value);
            && Summarizes(r.ttfb, Ttfbs(cfg.outcomes)) && Summarizes(r.total, Totals(cfg.outcomes))
            && r.successes == r.ttfb.sampleCount == r.total.sampleCount && r.successes + r.failures == |cfg.outcomes|
            && r.errors == Run(cfg, schedule).value.errors
  {
    hide Run, FromSortedMs, SortOf, Ttfbs, Totals, AllDone, IsPercentile, Sum;
    CompletedRun(cfg, schedule);
    var st := Run(cfg, schedule).value;
    SummaryMeans(Ttfbs(cfg.outcomes), SortOf(st.ttfb));
    SummaryMeans(Totals(cfg.outcomes), SortOf(st.total));
    Members(Ttfbs(cfg.outcomes), st.ttfb);
    Members(Totals(cfg.outcomes), st.total);
  }
}
