/** core/io/telegram_bridge.py: the interrupt-and-merge processor as a step system.

    The processor coroutine, the dispatch task, the peek task and the poll loop that fills the
    queue run on one event loop; a step is one stretch between two awaits, or one thing the
    environment does (a message arrives, the dispatch task ends). */
module Processor {
  import opened Messages

  /** The task that waits on the queue beside a running dispatch. */
  datatype Peek = NoPeek | Waiting | Holds(message: Message)

  /** Where the processor coroutine waits. */
  datatype Phase =
    | AwaitFirst   // on the queue, no batch open
    | Collecting   // in the first coalesce window
    | Watching     // on the dispatch task or the peek task, whichever ends first
    | Draining     // in the follow-up window, a peeked message in hand
    | WindingDown  // on the interrupted dispatch task

  /** A finished batch and what was dispatched for it, in order. */
  datatype Closed = Closed(parts: Batch, chain: seq<Batch>)

  datatype State = State(
    queue: seq<Message>, phase: Phase, parts: Batch, extra: Batch, peek: Peek,
    live: set<nat>, created: nat, followUp: bool,
    arrived: seq<Message>, closed: seq<Closed>, chain: seq<Batch>, requeued: bool)

  const Start := State([], AwaitFirst, [], [], NoPeek, {}, 0, false, [], [], [], false)

  datatype Event =
    | Arrive(message: Message)
    | TakeFirst
    | CoalesceTakes
    | WindowEnds
    | PeekTakes
    | DispatchEnds
    | Wake
    | DrainTakes
    | DrainEnds(planRunning: bool)
    | WoundDown

  predicate Enabled(s: State, e: Event) {
    match e
    case Arrive(_) => true
    case TakeFirst => s.phase == AwaitFirst && s.queue != []
    case CoalesceTakes => s.phase == Collecting && s.queue != []
    case WindowEnds => s.phase == Collecting
    case PeekTakes => s.peek == Waiting && s.queue != []
    case DispatchEnds => s.live != {}
    case Wake => s.phase == Watching && (s.live == {} || s.peek.Holds?)
    case DrainTakes => s.phase == Draining && s.queue != []
    case DrainEnds(_) => s.phase == Draining
    case WoundDown => s.phase == WindingDown
  }

  function Held(p: Peek): Batch { if p.Holds? then [p.message] else [] }

  /** The head of the `while True` of `_supervise_dispatch`: drop a blank batch, or start a dispatch and a peek. */
  function Launch(s: State): State {
    if Blank(s.parts) then
      s.(phase := AwaitFirst, parts := [], closed := s.closed + [Closed(s.parts, s.chain)], chain := [])
    else
      s.(phase := Watching, peek := Waiting, live := s.live + {s.created}, created := s.created + 1,
         followUp := false, chain := s.chain + [s.parts])
  }

  function Step(s: State, e: Event): State {
    if !Enabled(s, e) then s
    else match e
      case Arrive(m) => s.(queue := s.queue + [m], arrived := s.arrived + [m])
      case TakeFirst => s.(parts := [s.queue[0]], queue := s.queue[1..], phase := Collecting)
      case CoalesceTakes => s.(parts := s.parts + [s.queue[0]], queue := s.queue[1..])
      case WindowEnds => Launch(s)
      case PeekTakes => s.(peek := Holds(s.queue[0]), queue := s.queue[1..])
      case DispatchEnds => s.(live := {})
      case Wake =>
        if s.live == {} then
          // the dispatch is done: a message the peek already took goes to the back of the queue
          s.(peek := NoPeek, queue := s.queue + Held(s.peek), phase := AwaitFirst,
             requeued := s.requeued || (s.peek.Holds? && s.queue != []),
             parts := [], closed := s.closed + [Closed(s.parts, s.chain)], chain := [])
        else
          s.(peek := NoPeek, extra := Held(s.peek), phase := Draining)
      case DrainTakes => s.(extra := s.extra + [s.queue[0]], queue := s.queue[1..])
      case DrainEnds(planRunning) => s.(phase := WindingDown, followUp := s.followUp || planRunning)
      case WoundDown =>
        // awaited to its end or cancelled and awaited: the newest task is over either way
        Launch(s.(live := s.live - {s.created - 1}, parts := s.parts + s.extra, extra := []))
  }

  function Run(es: seq<Event>): State {
    if es == [] then Start else Step(Run(es[..|es| - 1]), es[|es| - 1])
  }

  // ---- conservation ----

  function Flat(cs: seq<Closed>): seq<Message> {
    if cs == [] then [] else Flat(cs[..|cs| - 1]) + cs[|cs| - 1].parts
  }

  /** Every message the processor still knows or has finished, oldest first. */
  function Accounted(s: State): seq<Message> {
    Flat(s.closed) + s.parts + s.extra + Held(s.peek) + s.queue
  }

  ghost predicate Conserved(s: State) {
    && multiset(s.arrived) == multiset(Accounted(s))
    && (!s.requeued ==> s.arrived == Accounted(s))
  }

  /** Which locals are in use where, and that a batch is launched only when no dispatch is alive. */
  ghost predicate Shape(s: State) {
    && (s.phase.AwaitFirst? ==> s.parts == [] && s.chain == [])
    && (s.phase.Collecting? ==> s.parts != [] && s.chain == [])
    && (s.phase.AwaitFirst? || s.phase.Collecting? ==> s.live == {})
    && (!s.phase.AwaitFirst? && !s.phase.Collecting? ==>
          s.created > 0 && s.live <= {s.created - 1} && !Blank(s.parts) && s.chain != [] &&
          s.chain[|s.chain| - 1] == s.parts)
    && (s.phase.Watching? <==> s.peek != NoPeek)
    && (s.phase.Draining? || s.phase.WindingDown? <==> s.extra != [])
    && (s.phase.Watching? || s.phase.Draining? ==> !s.followUp)
  }

  lemma FlatSnoc(cs: seq<Closed>, c: Closed)
    ensures Flat(cs + [c]) == Flat(cs) + c.parts
  {
    assert (cs + [c])[..|cs + [c]| - 1] == cs;
  }

  lemma LaunchAccounts(s: State)
    requires s.extra == [] && s.peek == NoPeek
    ensures Accounted(Launch(s)) == Accounted(s)
  {
    hide Blank;
    FlatSnoc(s.closed, Closed(s.parts, s.chain));
    assert Flat(s.closed) + s.parts + [] == Flat(s.closed) + s.parts;
  }

  /** Taking a message from the queue keeps its place in the account. */
  lemma TakesAccount(s: State, e: Event)
    requires Shape(s) && Enabled(s, e) && (e.TakeFirst? || e.CoalesceTakes? || e.PeekTakes? || e.DrainTakes?)
    ensures Accounted(Step(s, e)) == Accounted(s)
  {
    hide Launch;
    assert s.queue == [s.queue[0]] + s.queue[1..];
    var done := Flat(s.closed);
    var m, rest := [s.queue[0]], s.queue[1..];
    match e
    case TakeFirst => assert done + m + [] + [] + rest == done + [] + [] + [] + (m + rest);
    case CoalesceTakes => assert done + (s.parts + m) + [] + [] + rest == done + s.parts + [] + [] + (m + rest);
    case PeekTakes => assert done + s.parts + [] + m + rest == done + s.parts + [] + [] + (m + rest);
    case DrainTakes => assert done + s.parts + (s.extra + m) + [] + rest == done + s.parts + s.extra + [] + (m + rest);
  }

  predicate Straggles(s: State, e: Event) { e.Wake? && s.live == {} && s.peek.Holds? && s.queue != [] }

  lemma WakeDone(s: State)
    requires s.phase.Watching? && s.live == {} && s.extra == []
    ensures Accounted(s) == Flat(s.closed) + s.parts + Held(s.peek) + s.queue
    ensures Accounted(Step(s, Wake)) == Flat(s.closed) + s.parts + (s.queue + Held(s.peek))
  {
    hide Launch, Flat;
    FlatSnoc(s.closed, Closed(s.parts, s.chain));
    var t := Step(s, Wake);
    assert t.closed == s.closed + [Closed(s.parts, s.chain)] && t.queue == s.queue + Held(s.peek);
    assert Accounted(t) == Flat(t.closed) + t.queue;
  }

  lemma WakeInterrupts(s: State)
    requires s.phase.Watching? && s.live != {} && s.peek.Holds? && s.extra == []
    ensures Accounted(Step(s, Wake)) == Accounted(s)
  {
    hide Launch;
    var rest := Flat(s.closed) + s.parts;
    assert rest + [] + Held(s.peek) == rest + Held(s.peek) + [];
  }

  lemma SwapInMultiset(done: seq<Message>, held: seq<Message>, queue: seq<Message>)
    ensures multiset(done + (queue + held)) == multiset(done + held + queue)
    ensures held == [] || queue == [] ==> done + (queue + held) == done + held + queue
  {
  }

  lemma WakeAccounts(s: State)
    requires Shape(s) && Enabled(s, Wake)
    ensures !Straggles(s, Wake) ==> Accounted(Step(s, Wake)) == Accounted(s)
    ensures multiset(Accounted(Step(s, Wake))) == multiset(Accounted(s))
  {
    hide Launch;
    if s.live == {} {
      WakeDone(s);
      SwapInMultiset(Flat(s.closed) + s.parts, Held(s.peek), s.queue);
    } else {
      WakeInterrupts(s);
    }
  }

  lemma WoundDownAccounts(s: State)
    requires Shape(s) && s.phase.WindingDown?
    ensures Accounted(Step(s, WoundDown)) == Accounted(s)
  {
    hide Blank;
    var u := s.(live := s.live - {s.created - 1}, parts := s.parts + s.extra, extra := []);
    LaunchAccounts(u);
    assert Flat(s.closed) + (s.parts + s.extra) + [] == Flat(s.closed) + s.parts + s.extra;
  }

  /** Apart from arrivals, a step leaves the account as it is, or moves one straggler behind the queue. */
  lemma StepAccounts(s: State, e: Event)
    requires Shape(s) && Enabled(s, e)
    ensures !e.Arrive? && !Straggles(s, e) ==> Accounted(Step(s, e)) == Accounted(s)
    ensures Straggles(s, e) ==> multiset(Accounted(Step(s, e))) == multiset(Accounted(s))
    ensures e.Arrive? ==> Accounted(Step(s, e)) == Accounted(s) + [e.message]
  {
    hide Blank;
    match e
    case Arrive(m) =>
      var rest := Flat(s.closed) + s.parts + s.extra + Held(s.peek);
      assert rest + (s.queue + [m]) == rest + s.queue + [m];
    case WindowEnds => LaunchAccounts(s);
    case Wake => WakeAccounts(s);
    case WoundDown => WoundDownAccounts(s);
    case DispatchEnds =>
    case DrainEnds(_) =>
    case _ => TakesAccount(s, e);
  }

  lemma ShapeStep(s: State, e: Event)
    requires Shape(s)
    ensures Shape(Step(s, e))
  {
    hide Blank, Launch;
    if Enabled(s, e) {
      match e
      case WindowEnds => LaunchShape(s);
      case WoundDown =>
        MergeExtends(s.parts, s.extra);
        LaunchShape(s.(live := s.live - {s.created - 1}, parts := s.parts + s.extra, extra := []));
      case _ =>
    }
  }

  lemma LaunchShape(s: State)
    requires s.live == {} && s.extra == [] && s.peek == NoPeek
    ensures Shape(Launch(s))
  {
    hide Blank;
    if !Blank(s.parts) { assert Launch(s).live == {s.created}; }
  }

  lemma DisabledStays(s: State, e: Event)
    requires !Enabled(s, e)
    ensures Step(s, e) == s
  {
  }

  lemma StepHistory(s: State, e: Event)
    requires Enabled(s, e)
    ensures Step(s, e).arrived == s.arrived + (if e.Arrive? then [e.message] else [])
    ensures Step(s, e).requeued <==> s.requeued || Straggles(s, e)
  {
  }

  lemma ConservedStep(s: State, e: Event)
    requires Shape(s) && Conserved(s)
    ensures Conserved(Step(s, e))
  {
    hide Step, Accounted, Shape, Enabled, Straggles;
    if Enabled(s, e) { StepAccounts(s, e); StepHistory(s, e); } else { DisabledStays(s, e); }
  }

  /** Moving the first of a list behind the others changes nothing exactly when all are equal. */
  lemma {:induction false} RotationIsIdentityIff(m: Message, queue: seq<Message>)
    ensures [m] + queue == queue + [m] <==> forall x :: x in queue ==> x == m
  {
    if queue != [] {
      if [m] + queue == queue + [m] {
        assert queue[0] == (queue + [m])[0] == m;
        var rest := queue[1..];
        assert queue == [m] + rest;
        assert ([m] + queue)[1..] == queue && (queue + [m])[1..] == rest + [m];
        RotationIsIdentityIff(m, rest);
      }
      if forall x :: x in queue ==> x == m {
        forall i | 0 <= i < |queue| ensures queue[i] == m { assert queue[i] in queue; }
        forall i | 0 <= i < |queue| + 1 ensures ([m] + queue)[i] == (queue + [m])[i] { }
      }
    }
  }

  lemma SharedPrefix(p: seq<Message>, x: seq<Message>, y: seq<Message>)
    ensures p + x == p + y <==> x == y
  {
    if p + x == p + y { assert x == (p + x)[|p|..] == (p + y)[|p|..] == y; }
  }

  /** When the dispatch ends in the same tick in which the peek took a message, the account stays in
      arrival order exactly when every message still waiting equals the one that is put back. */
  lemma StragglerKeepsOrderIff(s: State)
    requires Shape(s) && s.arrived == Accounted(s)
    requires s.phase.Watching? && s.live == {} && s.peek.Holds?
    ensures var t := Step(s, Wake);
      t.arrived == Accounted(t) <==> forall x :: x in s.queue ==> x == s.peek.message
  {
    hide Flat, Accounted, Launch;
    WakeDone(s);
    var p, held := Flat(s.closed) + s.parts, [s.peek.message];
    assert p + held + s.queue == p + (held + s.queue);
    SharedPrefix(p, held + s.queue, s.queue + held);
    RotationIsIdentityIff(s.peek.message, s.queue);
  }

  // ---- the dispatches of one batch ----

  /** Each dispatch of the batch repeats the previous one and adds something to it. */
  ghost predicate Growing(chain: seq<Batch>) {
    (forall i :: 0 <= i < |chain| ==> !Blank(chain[i])) && PrefixChain(chain)
  }

  ghost predicate PrefixChain(chain: seq<Batch>) {
    forall i, j :: 0 <= i < j < |chain| ==> chain[i] < chain[j]
  }

  /** A finished batch was blank and never dispatched, or its last dispatch carried all of it. */
  ghost predicate Finished(c: Closed) {
    Growing(c.chain) && (if Blank(c.parts) then c.chain == [] else c.chain != [] && c.chain[|c.chain| - 1] == c.parts)
  }

  ghost predicate Chained(s: State) {
    Growing(s.chain) && forall i :: 0 <= i < |s.closed| ==> Finished(s.closed[i])
  }

  lemma PrefixChainSnoc(chain: seq<Batch>, next: Batch)
    requires PrefixChain(chain) && chain != [] && chain[|chain| - 1] < next
    ensures PrefixChain(chain + [next])
  {
    var n := |chain| - 1;
    forall i | 0 <= i <= n ensures chain[i] < next {
      if i < n {
        assert chain[i] < chain[n];
        forall k | 0 <= k < |chain[i]| ensures chain[i][k] == next[k] { assert chain[n][k] == next[k]; }
      }
    }
  }

  lemma GrowingSnoc(chain: seq<Batch>, last: Batch, more: Batch)
    requires Growing(chain) && chain != [] && chain[|chain| - 1] == last && more != []
    ensures Growing(chain + [last + more])
  {
    MergeExtends(last, more);
    PrefixChainSnoc(chain, last + more);
  }

  lemma LaunchChained(s: State)
    requires Chained(s) && (if Blank(s.parts) then s.chain == [] else Growing(s.chain + [s.parts]))
    ensures Chained(Launch(s))
  {
    hide Blank, Growing;
  }

  lemma OpeningChained(s: State)
    requires Chained(s) && s.chain == []
    ensures Chained(Launch(s))
  {
    hide MergedText, MergedAttachments;
  }

  lemma WakeChained(s: State)
    requires Shape(s) && Chained(s)
    ensures Chained(Step(s, Wake))
  {
    hide Blank;
  }

  lemma ChainedStep(s: State, e: Event)
    requires Shape(s) && Chained(s)
    ensures Chained(Step(s, e))
  {
    hide Blank, Launch, Growing;
    if Enabled(s, e) {
      match e
      case WoundDown =>
        MergeExtends(s.parts, s.extra);
        GrowingSnoc(s.chain, s.parts, s.extra);
        LaunchChained(s.(live := s.live - {s.created - 1}, parts := s.parts + s.extra, extra := []));
      case WindowEnds =>
        OpeningChained(s);
      case Wake => WakeChained(s);
      case _ => assert Step(s, e).chain == s.chain && Step(s, e).closed == s.closed;
    }
  }

  lemma {:induction false} RunKeeps(es: seq<Event>)
    ensures Shape(Run(es)) && Conserved(Run(es)) && Chained(Run(es))
  {
    if es != [] {
      var s, e := Run(es[..|es| - 1]), es[|es| - 1];
      RunKeeps(es[..|es| - 1]);
      ShapeStep(s, e);
      ConservedStep(s, e);
      ChainedStep(s, e);
    }
  }

  /** No message is lost, invented or duplicated in any run, and without a re-queued straggler
      the account lists the messages in the order they arrived. */
  lemma NothingLost(es: seq<Event>)
    ensures var s := Run(es);
      && multiset(s.arrived) == multiset(Flat(s.closed) + s.parts + s.extra + Held(s.peek) + s.queue)
      && (!s.requeued ==> s.arrived == Flat(s.closed) + s.parts + s.extra + Held(s.peek) + s.queue)
  {
    RunKeeps(es);
  }

  /** At any moment of any run at most one dispatch task is alive, and none while no batch is supervised. */
  lemma OneDispatchAlive(es: seq<Event>)
    ensures |Run(es).live| <= 1
    ensures Run(es).phase.AwaitFirst? || Run(es).phase.Collecting? ==> Run(es).live == {}
  {
    RunKeeps(es);
    var s := Run(es);
    if s.live != {} {
      assert s.live == {s.created - 1};
    }
  }

  /** In any run, the dispatches of a batch, finished or open, form a strictly growing chain of
      prefixes; the text of a later one is the earlier text, a blank line and the new texts, its
      attachments extend the earlier ones, and a voice reply, once due, stays due. A finished
      batch with any content was last dispatched as a whole. */
  lemma DispatchesGrow(es: seq<Event>, chain: seq<Batch>, i: nat, j: nat)
    requires chain == Run(es).chain || exists c :: c in Run(es).closed && c.chain == chain
    requires i < j < |chain|
    ensures chain[i] < chain[j]
    ensures var more := chain[j][|chain[i]|..];
      && more != []
      && MergedText(chain[j]) == Glue(MergedText(chain[i]), MergedText(more))
      && MergedAttachments(chain[j]) == MergedAttachments(chain[i]) + MergedAttachments(more)
      && (MergedVoice(chain[i]) ==> MergedVoice(chain[j]))
  {
    RunKeeps(es);
    assert Growing(chain) && PrefixChain(chain);
    var more := chain[j][|chain[i]|..];
    assert chain[j] == chain[i] + more;
    MergeExtends(chain[i], more);
  }

  lemma FinishedBatchesWereDispatched(es: seq<Event>, c: Closed)
    requires c in Run(es).closed
    ensures Blank(c.parts) <==> c.chain == []
    ensures c.chain != [] ==> c.chain[|c.chain| - 1] == c.parts
  {
    RunKeeps(es);
  }

  lemma CloseStep(s: State, e: Event)
    requires Shape(s) && Step(s, e).closed != s.closed
    ensures Blank(s.parts) || (e.Wake? && s.phase.Watching? && s.live == {} && !s.followUp)
  {
    hide MergedText, MergedAttachments;
    if e.WoundDown? { MergeExtends(s.parts, s.extra); }
  }

  /** A batch with any content is closed only when its last dispatch ended by itself while the
      follow-up flag was down, so that dispatch was never told to swallow its reply. */
  lemma ClosingDispatchReplies(es: seq<Event>, e: Event)
    requires Step(Run(es), e).closed != Run(es).closed && !Blank(Run(es).parts)
    ensures e.Wake? && Run(es).phase.Watching? && Run(es).live == {} && !Run(es).followUp
  {
    RunKeeps(es);
    CloseStep(Run(es), e);
  }

  /** The processor's next moves when nothing else arrives and no plan is running. */
  function Settle(s: State): State { Step(Step(Step(s, Wake), DrainEnds(false)), WoundDown) }

  /** A dispatch that ends by itself, its reply not swallowed, closes its batch exactly when the
      processor has not yet left its watch. Once it has taken up a peeked follow-up the whole batch
      is dispatched again on top of the reply already given. */
  lemma ReplyIsFinalIff(s: State)
    requires Shape(s) && s.live != {} && !s.followUp
    ensures var t := Settle(Step(s, DispatchEnds));
      && (t.closed == s.closed + [Closed(s.parts, s.chain)] <==> s.phase.Watching?)
      && (!s.phase.Watching? ==> t.closed == s.closed && t.chain == s.chain + [s.parts + s.extra] && |t.live| == 1)
  {
    if s.phase.Watching? {
      hide Blank, Launch;
      assert Step(Step(s, DispatchEnds), Wake).phase.AwaitFirst?;
    } else {
      WindingDownRelaunches(Step(s, DispatchEnds));
    }
  }

  lemma WindingDownRelaunches(s: State)
    requires (s.phase.Draining? || s.phase.WindingDown?) && s.live == {} && s.created > 0 && !Blank(s.parts)
    ensures Settle(s).closed == s.closed && Settle(s).chain == s.chain + [s.parts + s.extra] && |Settle(s).live| == 1
  {
    hide Blank, Launch;
    MergeExtends(s.parts, s.extra);
    var d := Step(s, DrainEnds(false));
    assert Step(s, Wake) == s;
    assert d == s.(phase := WindingDown);
    Relaunched(d);
  }

  lemma Relaunched(s: State)
    requires s.phase.WindingDown? && s.live == {} && s.created > 0 && !Blank(s.parts + s.extra)
    ensures var t := Step(s, WoundDown);
      t.closed == s.closed && t.chain == s.chain + [s.parts + s.extra] && |t.live| == 1
  {
    hide Blank;
    assert {} - {s.created - 1} + {s.created} == {s.created};
  }

  lemma RunSnoc(es: seq<Event>, e: Event)
    ensures Run(es + [e]) == Step(Run(es), e)
  {
    assert (es + [e])[..|es|] == es;
  }

  /** So "one reply per message" fails: m is answered by a dispatch of its own that ran to its end,
      then dispatched again together with n. */
  lemma AnsweredTwice(m: Message, n: Message)
    requires m.text != ""
    ensures exists before: seq<Event> ::
      var s, t := Run(before), Run(before + [DispatchEnds] + [DrainEnds(false)] + [WoundDown]);
      s.live != {} && !s.followUp && s.chain == [[m]] && t.chain == [[m], [m] + [n]] && t.closed == []
  {
    var before := DrainingRun(m, n);
    hide Blank, Step, Run;
    var s := Run(before);
    ReplyIsFinalIff(s);
    RunSnoc(before, DispatchEnds);
    RunSnoc(before + [DispatchEnds], DrainEnds(false));
    RunSnoc(before + [DispatchEnds] + [DrainEnds(false)], WoundDown);
    DispatchEndsDraining(s);
  }

  lemma DispatchEndsDraining(s: State)
    requires s.phase.Draining?
    ensures Settle(Step(s, DispatchEnds)) == Step(Step(Step(s, DispatchEnds), DrainEnds(false)), WoundDown)
  {
    hide Launch;
  }

  lemma DrainingRun(m: Message, n: Message) returns (before: seq<Event>)
    requires m.text != ""
    ensures var s := Run(before);
      Shape(s) && s.phase.Draining? && s.live != {} && !s.followUp && s.parts == [m] && s.extra == [n] &&
      s.chain == [[m]] && s.closed == []
  {
    hide Blank, Step;
    var open := Opened(m);
    before := Interrupted(open, n);
    RunKeeps(before);
  }

  lemma Opened(m: Message) returns (open: seq<Event>)
    requires m.text != ""
    ensures Run(open) == Start.(
      phase := Watching, parts := [m], peek := Waiting, live := {0}, created := 1, arrived := [m], chain := [[m]])
  {
    assert Run([]) == Start;
    hide Blank, Run, Launch;
    var taken := [] + [Arrive(m)] + [TakeFirst];
    RunSnoc([], Arrive(m));
    RunSnoc([] + [Arrive(m)], TakeFirst);
    assert Run(taken) == Start.(phase := Collecting, parts := [m], arrived := [m]);
    open := taken + [WindowEnds];
    RunSnoc(taken, WindowEnds);
    FirstLaunch(Run(taken), m);
  }

  lemma FirstLaunch(s: State, m: Message)
    requires m.text != "" && s == Start.(phase := Collecting, parts := [m], arrived := [m])
    ensures Launch(s) == s.(phase := Watching, peek := Waiting, live := {0}, created := 1, chain := [[m]])
  {
    hide Blank;
    NotBlank(m);
    assert [] + [[m]] == [[m]] && {} + {0} == {0};
  }

  lemma Interrupted(open: seq<Event>, n: Message) returns (before: seq<Event>)
    requires var s := Run(open); s.phase == Watching && s.peek == Waiting && s.live != {} && s.queue == []
    ensures Run(before) == Run(open).(
      phase := Draining, peek := NoPeek, extra := [n], arrived := Run(open).arrived + [n])
  {
    hide Launch, Run;
    before := open + [Arrive(n)] + [PeekTakes] + [Wake];
    RunSnoc(open, Arrive(n));
    RunSnoc(open + [Arrive(n)], PeekTakes);
    RunSnoc(open + [Arrive(n)] + [PeekTakes], Wake);
  }

  lemma NotBlank(m: Message)
    requires m.text != ""
    ensures !Blank([m])
  {
    assert [m][..0] == [];
    assert Texts([m]) == [m.text];
  }

  /** The dispatch of m ends while the peek holds a and b waits. */
  lemma HeldAndWaiting(m: Message, a: Message, b: Message) returns (es: seq<Event>)
    requires m.text != ""
    ensures var s := Run(es);
      s.phase.Watching? && s.live == {} && s.peek == Holds(a) && s.queue == [b] && s.parts == [m] && s.extra == [] &&
      s.closed == [] && s.arrived == [m, a, b]
  {
    hide Blank, Launch, Run;
    var open := Opened(m);
    es := open + [Arrive(a)] + [PeekTakes] + [Arrive(b)] + [DispatchEnds];
    RunSnoc(open, Arrive(a));
    RunSnoc(open + [Arrive(a)], PeekTakes);
    RunSnoc(open + [Arrive(a)] + [PeekTakes], Arrive(b));
    RunSnoc(open + [Arrive(a)] + [PeekTakes] + [Arrive(b)], DispatchEnds);
    assert [m] + [a] + [b] == [m, a, b];
  }

  /** A run that loses the order: a, peeked while m is dispatched, is put back behind b. */
  lemma StragglerOvertaken(m: Message, a: Message, b: Message)
    requires m.text != "" && a != b
    ensures exists es :: Run(es).arrived == [m, a, b] && Accounted(Run(es)) == [m, b, a]
  {
    var es := HeldAndWaiting(m, a, b);
    hide Run, Accounted, Launch;
    WakeDone(Run(es));
    RunSnoc(es, Wake);
    assert [] + [m] + ([b] + [a]) == [m, b, a];
    var after := es + [Wake];
    assert Run(after).arrived == [m, a, b] && Accounted(Run(after)) == [m, b, a];
  }

  // ---- what a burst of messages becomes ----

  /** The steps es from any state. */
  function After(s: State, es: seq<Event>): State {
    if es == [] then s else Step(After(s, es[..|es| - 1]), es[|es| - 1])
  }

  lemma AfterSnoc(s: State, es: seq<Event>, e: Event)
    ensures After(s, es + [e]) == Step(After(s, es), e)
  {
    assert (es + [e])[..|es|] == es;
  }

  /** Each message arrives and is taken at once, by the step e. */
  function Taken(ms: seq<Message>, e: Event): seq<Event> {
    if ms == [] then [] else Taken(ms[..|ms| - 1], e) + [Arrive(ms[|ms| - 1])] + [e]
  }

  lemma {:induction false} CoalesceAll(s: State, ms: seq<Message>)
    requires s.phase.Collecting? && s.queue == []
    ensures After(s, Taken(ms, CoalesceTakes)) == s.(parts := s.parts + ms, arrived := s.arrived + ms)
  {
    if ms == [] {
      assert s.parts + [] == s.parts && s.arrived + [] == s.arrived;
    } else {
      var n := |ms| - 1;
      var before := Taken(ms[..n], CoalesceTakes);
      CoalesceAll(s, ms[..n]);
      hide After;
      AfterSnoc(s, before, Arrive(ms[n]));
      AfterSnoc(s, before + [Arrive(ms[n])], CoalesceTakes);
      assert ms == ms[..n] + [ms[n]];
      assert s.parts + ms[..n] + [ms[n]] == s.parts + ms && s.arrived + ms[..n] + [ms[n]] == s.arrived + ms;
    }
  }

  lemma {:induction false} DrainAll(s: State, ms: seq<Message>)
    requires s.phase.Draining? && s.queue == []
    ensures After(s, Taken(ms, DrainTakes)) == s.(extra := s.extra + ms, arrived := s.arrived + ms)
  {
    if ms == [] {
      assert s.extra + [] == s.extra && s.arrived + [] == s.arrived;
    } else {
      var n := |ms| - 1;
      var before := Taken(ms[..n], DrainTakes);
      DrainAll(s, ms[..n]);
      hide After;
      AfterSnoc(s, before, Arrive(ms[n]));
      AfterSnoc(s, before + [Arrive(ms[n])], DrainTakes);
      assert ms == ms[..n] + [ms[n]];
      assert s.extra + ms[..n] + [ms[n]] == s.extra + ms && s.arrived + ms[..n] + [ms[n]] == s.arrived + ms;
    }
  }

  /** A message and everything that follows in the first window are dispatched together, in order, as
      one task; a blank batch is dropped without a task. */
  lemma FirstWindowIsOneDispatch(s: State, m: Message, ms: seq<Message>)
    requires s.phase.AwaitFirst? && s.queue == [] && s.live == {} && s.chain == []
    ensures var t := After(After(s, [] + [Arrive(m)] + [TakeFirst]), Taken(ms, CoalesceTakes) + [WindowEnds]);
      if Blank([m] + ms) then t.phase.AwaitFirst? && t.live == {} && t.closed == s.closed + [Closed([m] + ms, [])]
      else
        t.phase.Watching? && t.live == {s.created} && t.parts == [m] + ms &&
        t.chain == [[m] + ms] && t.closed == s.closed
  {
    hide Blank;
    AfterSnoc(s, [], Arrive(m));
    AfterSnoc(s, [] + [Arrive(m)], TakeFirst);
    var u := After(s, [] + [Arrive(m)] + [TakeFirst]);
    assert u == s.(phase := Collecting, parts := [m], arrived := s.arrived + [m]);
    CoalesceAll(u, ms);
    AfterSnoc(u, Taken(ms, CoalesceTakes), WindowEnds);
    assert {} + {s.created} == {s.created} && [] + [[m] + ms] == [[m] + ms];
  }

  /** Follow-ups to a running dispatch are all taken along: the flag that swallows the cancelled reply
      goes up exactly when a plan is running, and the next dispatch carries the old batch and the new
      messages in order. */
  lemma FollowUpsAreMerged(s: State, n: Message, ns: seq<Message>, planRunning: bool)
    requires Shape(s) && s.phase.Watching? && s.live != {} && s.peek.Waiting? && s.queue == []
    ensures var taken := After(s, [] + [Arrive(n)] + [PeekTakes] + [Wake]);
      var t := After(taken, Taken(ns, DrainTakes) + [DrainEnds(planRunning)]);
      t.phase.WindingDown? && t.followUp == planRunning && t.extra == [n] + ns &&
      var u := Step(t, WoundDown);
      u.phase.Watching? && !u.followUp && |u.live| == 1 && u.closed == s.closed &&
      u.chain == s.chain + [s.parts + ([n] + ns)]
  {
    MergeExtends(s.parts, [n] + ns);
    hide Blank, Launch, After, Step;
    PeekedUp(s, n);
    var d := s.(phase := Draining, peek := NoPeek, extra := [n], arrived := s.arrived + [n]);
    DrainAll(d, ns);
    AfterSnoc(d, Taken(ns, DrainTakes), DrainEnds(planRunning));
    DrainingEnds(After(d, Taken(ns, DrainTakes)), planRunning);
    MergedDispatch(Step(After(d, Taken(ns, DrainTakes)), DrainEnds(planRunning)), s.parts + ([n] + ns));
  }

  lemma PeekedUp(s: State, n: Message)
    requires s.phase.Watching? && s.live != {} && s.peek.Waiting? && s.queue == []
    ensures After(s, [] + [Arrive(n)] + [PeekTakes] + [Wake]) ==
              s.(phase := Draining, peek := NoPeek, extra := [n], arrived := s.arrived + [n])
  {
    hide Launch;
    AfterSnoc(s, [], Arrive(n));
    AfterSnoc(s, [] + [Arrive(n)], PeekTakes);
    AfterSnoc(s, [] + [Arrive(n)] + [PeekTakes], Wake);
  }

  lemma DrainingEnds(s: State, planRunning: bool)
    requires s.phase.Draining?
    ensures Step(s, DrainEnds(planRunning)) == s.(phase := WindingDown, followUp := s.followUp || planRunning)
  {
  }

  lemma MergedDispatch(t: State, batch: Batch)
    requires t.phase.WindingDown? && t.created > 0 && t.live <= {t.created - 1}
    requires batch == t.parts + t.extra && !Blank(batch)
    ensures var u := Step(t, WoundDown);
      u.phase.Watching? && !u.followUp && |u.live| == 1 && u.closed == t.closed && u.chain == t.chain + [batch]
  {
    hide Blank;
    assert t.live - {t.created - 1} + {t.created} == {t.created};
  }
}
