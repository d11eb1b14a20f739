/** The processor half of `TelegramBridge` as the object it is: one method per stretch of code
    between two awaits, each proved to take the matching step of Processor. */
module BridgeObject {
  import opened Messages
  import opened Processor

  class TelegramBridge {
    var queue: seq<Message>
    var phase: Phase
    var parts: Batch
    var extra: Batch
    var peek: Peek
    var live: set<nat>
    var created: nat
    var followUp: bool
    ghost var arrived: seq<Message>
    ghost var closed: seq<Closed>
    ghost var chain: seq<Batch>
    ghost var requeued: bool

    ghost function View(): State
      reads this
    {
      State(queue, phase, parts, extra, peek, live, created, followUp, arrived, closed, chain, requeued)
    }

    ghost predicate Valid()
      reads this
    {
      Shape(View()) && Conserved(View()) && Chained(View())
    }

    constructor ()
      ensures Valid() && View() == Start
    {
      queue, phase, parts, extra, peek := [], AwaitFirst, [], [], NoPeek;
      live, created, followUp := {}, 0, false;
      arrived, closed, chain, requeued := [], [], [], false;
    }

    /** The three invariants survive a step; every method ends with this. */
    ghost method Stepped(before: State, e: Event)
      requires Shape(before) && Conserved(before) && Chained(before)
      requires View() == Step(before, e)
      ensures Valid()
    {
      hide Step;
      ShapeStep(before, e);
      ConservedStep(before, e);
      ChainedStep(before, e);
    }

    /** `self._queue.put(inbound)` */
    method Put(m: Message)
      requires Valid()
      modifies this
      ensures Valid() && View() == Step(old(View()), Arrive(m))
    {
      queue := queue + [m];
      arrived := arrived + [m];
      Stepped(old(View()), Arrive(m));
    }

    method TakeFirstMessage()
      requires Valid() && phase == AwaitFirst && queue != []
      modifies this
      ensures Valid() && View() == Step(old(View()), TakeFirst)
    {
      parts, queue, phase := [queue[0]], queue[1..], Collecting;
      Stepped(old(View()), TakeFirst);
    }

    method Coalesce()
      requires Valid() && phase == Collecting && queue != []
      modifies this
      ensures Valid() && View() == Step(old(View()), CoalesceTakes)
    {
      parts, queue := parts + [queue[0]], queue[1..];
      Stepped(old(View()), CoalesceTakes);
    }

    method CloseBatch()
      modifies this
      ensures View() == old(View()).(
        phase := AwaitFirst, parts := [], closed := old(closed) + [Closed(old(parts), old(chain))], chain := [])
    {
      closed := closed + [Closed(parts, chain)];
      chain, parts, phase := [], [], AwaitFirst;
    }

    method CreateTasks()
      modifies this
      ensures View() == old(View()).(
        phase := Watching, peek := Waiting, live := old(live) + {old(created)}, created := old(created) + 1,
        followUp := false, chain := old(chain) + [old(parts)])
    {
      followUp := false;
      live, created := live + {created}, created + 1;
      peek, phase := Waiting, Watching;
      chain := chain + [parts];
    }

    /** The head of the supervising loop. */
    method StartDispatch()
      modifies this
      ensures View() == Launch(old(View()))
    {
      hide MergedText, MergedAttachments, MergedVoice;
      var text, attachments, voice := Merge(parts);
      if text == "" && attachments == [] {
        CloseBatch();
      } else {
        CreateTasks();
      }
    }

    method CloseWindow()
      requires Valid() && phase == Collecting
      modifies this
      ensures Valid() && View() == Step(old(View()), WindowEnds)
    {
      StartDispatch();
      Stepped(old(View()), WindowEnds);
    }

    method PeekMessage()
      requires Valid() && peek == Waiting && queue != []
      modifies this
      ensures Valid() && View() == Step(old(View()), PeekTakes)
    {
      peek, queue := Holds(queue[0]), queue[1..];
      Stepped(old(View()), PeekTakes);
    }

    method EndDispatch()
      requires Valid() && live != {}
      modifies this
      ensures Valid() && View() == Step(old(View()), DispatchEnds)
    {
      live := {};
      Stepped(old(View()), DispatchEnds);
    }

    /** The processor resumes after `asyncio.wait`. */
    method Resume()
      requires Valid() && phase == Watching && (live == {} || peek.Holds?)
      modifies this
      ensures Valid() && View() == Step(old(View()), Wake)
    {
      hide Launch, Conserved, Chained, Blank;
      if live == {} {
        if peek.Holds? {
          requeued := requeued || queue != [];
          queue := queue + [peek.message];
        }
        CloseBatch();
      } else {
        extra, phase := [peek.message], Draining;
      }
      peek := NoPeek;
      assert old(queue) + [] == old(queue);
      Stepped(old(View()), Wake);
    }

    method Drain()
      requires Valid() && phase == Draining && queue != []
      modifies this
      ensures Valid() && View() == Step(old(View()), DrainTakes)
    {
      extra, queue := extra + [queue[0]], queue[1..];
      Stepped(old(View()), DrainTakes);
    }

    /** Cancels whatever plan the orchestrator runs, if it runs one. */
    method Interrupt(planRunning: bool)
      requires Valid() && phase == Draining
      modifies this
      ensures Valid() && View() == Step(old(View()), DrainEnds(planRunning))
    {
      if planRunning { followUp := true; }
      phase := WindingDown;
      Stepped(old(View()), DrainEnds(planRunning));
    }

    /** The interrupted dispatch is over; merge and go round again. */
    method Redispatch()
      requires Valid() && phase == WindingDown
      modifies this
      ensures Valid() && View() == Step(old(View()), WoundDown)
    {
      hide Launch, Conserved, Chained, Blank;
      live := live - {created - 1};
      parts, extra := parts + extra, [];
      StartDispatch();
      Stepped(old(View()), WoundDown);
    }
  }
}
