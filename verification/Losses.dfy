/** When a session stops early: the datagrams lost in a schedule, counted round by round. */
module Losses {
  import opened Wire
  import opened Plans
  import opened Session

  /** How often the network did `what` since the server waits for the first datagram of the
      current test. */
  function Times(w: World, actions: seq<Action>, what: Action): nat {
    match Run(w, actions)
    case None => 0
    case Some(st) =>
      if actions == [] || !st.s.SAwaitData? then 0
      else Times(w, actions[..|actions| - 1], what) + if actions[|actions| - 1] == what then 1 else 0
  }

  /** How many datagrams of the current test were lost, and how many repeated. */
  function Lost(w: World, actions: seq<Action>): nat { Times(w, actions, Lose) }

  function Copied(w: World, actions: seq<Action>): nat { Times(w, actions, Copy) }

  /** What the client has still to send in the server's round. */
  function Unsent(w: World, st: State): nat {
    if st.c.CAwaitResponse? then ToSend(w, st.served) else if st.c.CData? then st.c.left else 0
  }

  /** The server waits for a first datagram, and all that the client sends it were lost, with every
      copy the network made. */
  predicate AllLost(w: World, actions: seq<Action>) {
    var r := Run(w, actions);
    r.Some? && r.value.s.SAwaitData? && Lost(w, actions) == ToSend(w, r.value.served) + Copied(w, actions)
  }

  lemma TimesStep(w: World, actions: seq<Action>, a: Action, what: Action)
    ensures var r := Run(w, actions + [a]);
            Times(w, actions + [a], what) ==
            if r.Some? && r.value.s.SAwaitData? then Times(w, actions, what) + if a == what then 1 else 0 else 0
  {
    hide Run;
    assert (actions + [a])[..|actions|] == actions;
  }

  lemma RunAppend(w: World, actions: seq<Action>, a: Action)
    ensures Run(w, actions + [a]) == if Run(w, actions).None? then None else Apply(w, Run(w, actions).value, a)
  {
    assert (actions + [a])[..|actions|] == actions;
  }

  /** One step keeps the balance of a round. */
  lemma BalanceStep(w: World, st: State, a: Action)
    requires Inv(w, st) && Apply(w, st, a).Some? && st.s.SAwaitData? && Apply(w, st, a).value.s.SAwaitData?
    ensures var st' := Apply(w, st, a).value;
            && st'.served == st.served
            && st'.data + Unsent(w, st') + (if a == Lose then 1 else 0) == st.data + Unsent(w, st) + if a == Copy then 1 else 0
  {
    hide Inv, ToSend;
    StepKeepsInv(w, st, a);
    Rendezvous(w, st);
    Rendezvous(w, Apply(w, st, a).value);
  }

  /** A round starts with everything still to be sent. */
  lemma RoundStarts(w: World, st: State, a: Action)
    requires Inv(w, st) && Apply(w, st, a).Some? && !st.s.SAwaitData? && Apply(w, st, a).value.s.SAwaitData?
    ensures var st' := Apply(w, st, a).value;
            a == Server && st.s.SRespond? && st'.served == st.served && st'.data == 0 && st'.c.CAwaitResponse?
  {
    hide ClientOk, ServerOk, ChannelsOk;
    assert a == Server && st.s.SRespond?;
    Rendezvous(w, st);
  }

  /** While the server waits, lost, travelling and unsent datagrams add up to all of them, copies
      included. */
  lemma {:induction false} LostCounts(w: World, actions: seq<Action>)
    requires Runnable(w) && Run(w, actions).Some? && Run(w, actions).value.s.SAwaitData?
    ensures var st := Run(w, actions).value;
            Lost(w, actions) + st.data + Unsent(w, st) == ToSend(w, st.served) + Copied(w, actions)
  {
    hide Inv, Apply, Unsent, ToSend;
    var before, a := actions[..|actions| - 1], actions[|actions| - 1];
    assert actions == before + [a];
    RunAppend(w, before, a);
    TimesStep(w, before, a, Lose);
    TimesStep(w, before, a, Copy);
    RunKeepsInv(w, before);
    var st := Run(w, before).value;
    if st.s.SAwaitData? {
      LostCounts(w, before);
      BalanceStep(w, st, a);
    } else {
      RoundStarts(w, st, a);
      AllUnsent(w, Run(w, actions).value);
    }
  }

  lemma AllUnsent(w: World, st: State)
    requires st.c.CAwaitResponse?
    ensures Unsent(w, st) == ToSend(w, st.served)
  {
  }

  /** Only UDP tests lose datagrams. */
  lemma OnlyUdpIsLost(w: World, actions: seq<Action>)
    requires Runnable(w) && AllLost(w, actions)
    ensures IsUdp(RequestAt(w, Run(w, actions).value.served).kind)
  {
    hide Run, Lost, ChannelsOk, ClientOk;
    RunKeepsInv(w, actions);
    LostCounts(w, actions);
    Rendezvous(w, Run(w, actions).value);
  }

  /** The starved states are those whose schedule lost every datagram of the round. */
  lemma StarvedExactly(w: World, actions: seq<Action>)
    requires Runnable(w) && Run(w, actions).Some?
    ensures Starved(Run(w, actions).value) <==> Run(w, actions).value.c.CAwaitReport? && AllLost(w, actions)
  {
    hide Run, Lost, ToSend;
    if Run(w, actions).value.s.SAwaitData? {
      LostCounts(w, actions);
    }
  }

  /** A run can go no further in exactly two cases: both parties are done, or the schedule lost
      every datagram the client sent in a UDP round and the client waits for the report. */
  lemma StuckExactly(w: World, actions: seq<Action>)
    requires Runnable(w) && Run(w, actions).Some?
    ensures var st := Run(w, actions).value;
            (forall a :: a != Stray ==> Apply(w, st, a).None?) <==> Finished(st) || (AllLost(w, actions) && st.c.CAwaitReport?)
    ensures AllLost(w, actions) ==> IsUdp(RequestAt(w, Run(w, actions).value.served).kind)
  {
    hide Run, Inv, Apply, AllLost;
    RunKeepsInv(w, actions);
    StuckStates(w, Run(w, actions).value);
    StarvedExactly(w, actions);
    if AllLost(w, actions) {
      OnlyUdpIsLost(w, actions);
    }
  }

  lemma LostStays(w: World, actions: seq<Action>, a: Action)
    requires Runnable(w) && AllLost(w, actions) && Run(w, actions + [a]).Some? && a != Stray
    ensures AllLost(w, actions + [a])
  {
    hide Run, Times, Inv, ToSend;
    var st := Run(w, actions).value;
    RunKeepsInv(w, actions);
    LostCounts(w, actions);
    RunAppend(w, actions, a);
    TimesStep(w, actions, a, Lose);
    TimesStep(w, actions, a, Copy);
    assert st.data == 0;
    assert Apply(w, st, a).value.s == st.s && Apply(w, st, a).value.served == st.served;
  }

  /** A round whose datagrams are all lost is the last one, unless a stranger's datagram ends the
      wait. */
  lemma {:induction false} LostForGood(w: World, actions: seq<Action>, k: nat)
    requires Runnable(w) && k <= |actions| && AllLost(w, actions[..k]) && Run(w, actions).Some?
    requires Stray !in actions[k..]
    ensures AllLost(w, actions)
  {
    hide AllLost;
    if k == |actions| {
      assert actions[..k] == actions;
    } else {
      var before, a := actions[..|actions| - 1], actions[|actions| - 1];
      assert actions == before + [a] && before[..k] == actions[..k];
      assert before[k..] == actions[k..][..|before| - k] && a == actions[k..][|before| - k];
      RunAppend(w, before, a);
      LostForGood(w, before, k);
      LostStays(w, before, a);
    }
  }

  /** A run that can go no further has completed the session if and only if whenever a UDP round had
      lost all its datagrams and copies, a stranger's datagram came after that. */
  lemma CompletesExactly(w: World, actions: seq<Action>)
    requires Runnable(w) && Run(w, actions).Some?
    requires forall a :: a != Stray ==> Apply(w, Run(w, actions).value, a).None?
    ensures Finished(Run(w, actions).value) <==>
            forall k :: 0 <= k <= |actions| && AllLost(w, actions[..k]) ==> Stray in actions[k..]
  {
    hide Run, Apply, Lost, ToSend;
    StuckExactly(w, actions);
    assert actions[..|actions|] == actions;
    if k :| 0 <= k <= |actions| && AllLost(w, actions[..k]) && Stray !in actions[k..] {
      LostForGood(w, actions, k);
    }
  }

  // ----- Starvation happens -----

  lemma {:induction false} NothingLost(w: World, actions: seq<Action>)
    requires Lose !in actions
    ensures Lost(w, actions) == 0
  {
    hide Run;
    if actions != [] {
      NothingLost(w, actions[..|actions| - 1]);
    }
  }

  lemma Onward(w: World, st: State) returns (a: Action)
    requires Inv(w, st) && !Finished(st) && !Starved(st)
    ensures a != Lose && Apply(w, st, a).Some?
  {
    hide Inv, ClientStep, ServerStep;
    SomeoneCanStep(w, st);
    a := if ClientStep(w, st).Some? then Client
         else if ServerStep(w, st).Some? then Server
         else if st.up.flying != [] then DeliverUp(|st.up.flying|)
         else DeliverDown(|st.down.flying|);
  }

  /** Round `k` has not got to its data phase. */
  predicate Ahead(st: State, k: nat) {
    && st.served <= k
    && (st.served == k ==> st.s.SAwaitHello? || st.s.SHello? || st.s.SAwaitRequest? || st.s.SRespond?)
  }

  lemma StaysAhead(w: World, st: State, a: Action, k: nat)
    requires Inv(w, st) && Ahead(st, k) && k < |w.plans| && Apply(w, st, a).Some?
    ensures var st' := Apply(w, st, a).value;
            Ahead(st', k) || (st'.served == k && st'.s.SAwaitData? && st'.c.CAwaitResponse?)
  {
    hide Inv;
    StepKeepsInv(w, st, a);
    InvFacts(w, Apply(w, st, a).value);
    if a == Server && st.s.SRespond? {
      Rendezvous(w, st);
    }
  }

  lemma InvFacts(w: World, st: State)
    requires Inv(w, st)
    ensures !st.s.SBadHandshake? && !st.s.SUnknownKind? && (st.s.SDone? ==> st.served == |w.plans|)
  {
  }

  /** Without losses every round is reached. */
  lemma {:induction false} ReachRound(w: World, actions: seq<Action>, k: nat) returns (more: seq<Action>)
    requires Runnable(w) && Run(w, actions).Some? && Lose !in actions
    requires k < |w.plans| && Ahead(Run(w, actions).value, k)
    ensures Run(w, more).Some?
    ensures var st := Run(w, more).value; st.served == k && st.s.SAwaitData? && st.c.CAwaitResponse?
    decreases StepsLeft(w, Run(w, actions).value), DataLeft(Run(w, actions).value), BytesLeft(Run(w, actions).value)
  {
    hide Inv, Apply, Run, Lost, ToSend, StepsLeft, DataLeft, BytesLeft;
    var st := Run(w, actions).value;
    RunKeepsInv(w, actions);
    NothingLost(w, actions);
    StarvedExactly(w, actions);
    SomethingToSend(w, st.served);
    InvFacts(w, st);
    var a := Onward(w, st);
    RunAppend(w, actions, a);
    StaysAhead(w, st, a, k);
    StepKeepsInv(w, st, a);
    var st' := Run(w, actions + [a]).value;
    if !Ahead(st', k) {
      return actions + [a];
    }
    StepShrinks(w, st, a);
    StepsLeftNonnegative(w, st);
    StepsLeftNonnegative(w, st');
    more := ReachRound(w, actions + [a], k);
  }

  lemma SomethingToSend(w: World, i: nat)
    ensures ToSend(w, i) > 0
  {
  }

  /** The client gets the port while the server waits. */
  lemma LearnPort(w: World, actions: seq<Action>) returns (more: seq<Action>)
    requires Runnable(w) && Run(w, actions).Some?
    requires var st := Run(w, actions).value; st.s.SAwaitData? && st.c.CAwaitResponse?
    ensures Run(w, more).Some?
    ensures var st, st' := Run(w, actions).value, Run(w, more).value;
            st'.s == st.s && st'.served == st.served && st'.c.CData? && st'.data == 0
  {
    hide Inv, Run, Stuck, ToSend;
    var st := Run(w, actions).value;
    more := actions;
    if st.down.flying != [] {
      RunAppend(w, more, DeliverDown(|st.down.flying|));
      more := more + [DeliverDown(|st.down.flying|)];
    }
    var st1 := Run(w, more).value;
    RunKeepsInv(w, more);
    CanLearn(w, st1);
    RunAppend(w, more, Client);
    more := more + [Client];
    RunKeepsInv(w, more);
    Rendezvous(w, Run(w, more).value);
  }

  lemma CanLearn(w: World, st: State)
    requires Inv(w, st) && st.s.SAwaitData? && st.c.CAwaitResponse? && st.down.flying == []
    ensures ClientStep(w, st).Some? && !ClientStep(w, st).value.c.CAwaitResponse? && st.data == 0
    ensures !ClientStep(w, st).value.c.CAwaitReport?
  {
    hide Carries;
    Rendezvous(w, st);
    ClientReady(w, st);
  }

  /** Every datagram is lost as soon as it is sent. */
  lemma {:induction false} LoseAll(w: World, actions: seq<Action>, left: nat) returns (more: seq<Action>)
    requires Run(w, actions).Some?
    requires var st := Run(w, actions).value;
             st.s.SAwaitData? && st.c.CData? && st.c.left == left && st.data == 0 && IsUdp(RequestAt(w, st.served).kind)
    ensures Run(w, more).Some? && Starved(Run(w, more).value)
    ensures Run(w, more).value.served == Run(w, actions).value.served
    decreases left
  {
    hide Run, RequestAt;
    RunAppend(w, actions, Client);
    if left == 0 {
      return actions + [Client];
    }
    RunAppend(w, actions + [Client], Lose);
    more := LoseAll(w, actions + [Client] + [Lose], left - 1);
  }

  /** Starvation can strike any UDP test, upload or download: some schedule completes the tests
      before it and then loses all its datagrams. */
  lemma EveryUdpTestCanStarve(w: World, k: nat) returns (actions: seq<Action>)
    requires Runnable(w) && k < |w.plans| && IsUdp(w.plans[k].kind)
    ensures Run(w, actions).Some? && Run(w, actions).value.served == k
    ensures Starved(Run(w, actions).value) && AllLost(w, actions)
  {
    hide Inv, Lost, AllLost, ToSend;
    assert Run(w, []) == Some(Init(w));
    var reached := ReachRound(w, [], k);
    var asked := LearnPort(w, reached);
    actions := LoseAll(w, asked, Run(w, asked).value.c.left);
    StarvedExactly(w, actions);
  }
}
