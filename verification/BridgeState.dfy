/** core/io/telegram_bridge.py: the update offset, the rolling history and the state file. */
module BridgeState {
  import opened Wrappers

  const HISTORY_MAX := 24
  const TURN_CAP := 2000

  datatype Role = User | Assistant

  datatype Turn = Turn(role: Role, text: string)

  /** The part of the state file this module is about. */
  datatype File = File(offset: Option<int>, history: seq<Turn>)

  /** `deque(maxlen=24).append` */
  function Push(h: seq<Turn>, t: Turn): seq<Turn> {
    if |h| < HISTORY_MAX then h + [t] else h[1..] + [t]
  }

  function Recorded(h: seq<Turn>, user: string, reply: string): seq<Turn> {
    Push(Push(h, Turn(User, user)), Turn(Assistant, reply))
  }

  function Clamp(t: Turn): Turn { if |t.text| > TURN_CAP then t.(text := t.text[..TURN_CAP]) else t }

  function Clamped(h: seq<Turn>): (r: seq<Turn>)
    ensures |r| == |h|
    ensures forall i :: 0 <= i < |h| ==> r[i] == Clamp(h[i])
  {
    if h == [] then [] else Clamped(h[..|h| - 1]) + [Clamp(h[|h| - 1])]
  }

  /** Whole exchanges only: user and assistant in turn, at most twelve of each. */
  ghost predicate Exchanges(h: seq<Turn>) {
    && |h| % 2 == 0 && |h| <= HISTORY_MAX
    && forall i :: 0 <= i < |h| ==> h[i].role == (if i % 2 == 0 then User else Assistant)
  }

  lemma RecordedKeepsExchanges(h: seq<Turn>, user: string, reply: string)
    requires Exchanges(h)
    ensures Exchanges(Recorded(h, user, reply))
    ensures Recorded(h, user, reply) ==
        (if |h| < HISTORY_MAX then h else h[2..]) + [Turn(User, user), Turn(Assistant, reply)]
  {
    var a := Push(h, Turn(User, user));
    if |h| == HISTORY_MAX { assert a[1..] == h[2..] + [Turn(User, user)]; }
  }

  lemma ClampedTurn(t: Turn)
    ensures |Clamp(t).text| <= TURN_CAP && Clamp(t).role == t.role
    ensures Clamp(t) == t <==> |t.text| <= TURN_CAP
  {
    if |t.text| > TURN_CAP { assert |t.text[..TURN_CAP]| == TURN_CAP; }
  }

  /** The clamp keeps the first 2000 characters of every turn and the rest of it. */
  lemma ClampIs(t: Turn)
    ensures Clamp(t).role == t.role && Clamp(t).text <= t.text
    ensures |Clamp(t).text| == if |t.text| <= 2000 then |t.text| else 2000
  {
  }

  ghost predicate Short(h: seq<Turn>) { forall i :: 0 <= i < |h| ==> |h[i].text| <= TURN_CAP }

  lemma ClampFixesIff(h: seq<Turn>)
    ensures Clamped(h) == h <==> Short(h)
  {
    hide Clamped;
    var once := Clamped(h);
    forall i | 0 <= i < |h| ensures once[i] == h[i] <==> |h[i].text| <= TURN_CAP { ClampedTurn(h[i]); }
    if once == h {
      forall i | 0 <= i < |h| ensures |h[i].text| <= TURN_CAP { assert once[i] == h[i]; }
    }
  }

  /** Clamping twice is clamping once, so a state that went through the file once is a fixed point. */
  lemma ClampIdempotent(h: seq<Turn>)
    ensures Clamped(Clamped(h)) == Clamped(h)
    ensures Exchanges(h) ==> Exchanges(Clamped(h))
    ensures Clamped(h) == h <==> Short(h)
  {
    hide Clamped;
    ClampFixesIff(h);
    ClampFixesIff(Clamped(h));
    forall i | 0 <= i < |h| ensures |Clamped(h)[i].text| <= TURN_CAP && Clamped(h)[i].role == h[i].role {
      ClampedTurn(h[i]);
    }
  }

  class Memory {
    var offset: Option<int>
    var history: seq<Turn>

    constructor ()
      ensures offset == None && history == []
    {
      offset, history := None, [];
    }

    method RecordExchange(user: string, reply: string)
      requires Exchanges(history)
      modifies this
      ensures offset == old(offset) && history == Recorded(old(history), user, reply) && Exchanges(history)
    {
      RecordedKeepsExchanges(history, user, reply);
      history := Push(history, Turn(User, user));
      history := Push(history, Turn(Assistant, reply));
    }

    /** `_save_state`: the payload it writes. */
    method SaveState() returns (file: File)
      ensures file == File(offset, Clamped(history))
    {
      var payload: seq<Turn> := [];
      for i := 0 to |history|
        invariant payload == Clamped(history[..i])
      {
        assert history[..i + 1][..i] == history[..i];
        var t := history[i];
        payload := payload + [if |t.text| > TURN_CAP then t.(text := t.text[..TURN_CAP]) else t];
      }
      assert history[..|history|] == history;
      file := File(offset, payload);
    }

    /** `_load_state` replaces what is in memory: offset is None when it is no integer, an item is None
        when it is no turn, and the deque trims on the left. */
    method LoadState(offset: Option<int>, items: seq<Option<Turn>>)
      modifies this
      ensures this.offset == offset && history == Newest(Usable(items))
    {
      this.offset, history := offset, [];
      for i := 0 to |items|
        invariant this.offset == offset && history == Newest(Usable(items[..i]))
      {
        LoadedSnoc(items[..i], items[i]);
        hide Usable, Newest;
        assert items[..i] + [items[i]] == items[..i + 1];
        if items[i].Some? { history := Push(history, items[i].value); }
      }
      assert items[..|items|] == items;
    }
  }

  function Usable(items: seq<Option<Turn>>): seq<Turn> {
    if items == [] then []
    else Usable(items[..|items| - 1]) + (if items[|items| - 1].Some? then [items[|items| - 1].value] else [])
  }

  function Newest(h: seq<Turn>): seq<Turn> { if |h| <= HISTORY_MAX then h else h[|h| - HISTORY_MAX..] }

  /** The next item of the file is skipped when it is no turn; otherwise it comes last, and only the
      newest 24 turns are kept. */
  lemma LoadedSnoc(items: seq<Option<Turn>>, item: Option<Turn>)
    ensures item.None? ==> Newest(Usable(items + [item])) == Newest(Usable(items))
    ensures item.Some? ==> Newest(Usable(items + [item])) == Push(Newest(Usable(items)), item.value)
    ensures exists older ::
              Usable(items) == older + Newest(Usable(items)) && (older == [] || |Newest(Usable(items))| == 24)
  {
    var all, h := items + [item], Usable(items);
    assert all[..|all| - 1] == items;
    assert Usable(all) == h + (if item.Some? then [item.value] else []);
    hide Usable, Newest, Push;
    NewestIs(h);
    if item.Some? { NewestPush(h, item.value); } else { assert h + [] == h; }
  }

  lemma NewestPush(h: seq<Turn>, t: Turn)
    ensures Newest(h + [t]) == Push(Newest(h), t)
  {
    if |h| >= HISTORY_MAX {
      assert (h[|h| - HISTORY_MAX..] + [t])[1..] == (h + [t])[|h| + 1 - HISTORY_MAX..];
    }
  }

  lemma NewestIs(h: seq<Turn>)
    ensures exists older :: h == older + Newest(h) && (older == [] || |Newest(h)| == 24)
  {
    assert h == h[..|h| - |Newest(h)|] + Newest(h);
  }

  /** A file that `_save_state` wrote is loaded turn for turn. */
  lemma {:induction false} SavedItemsAreUsable(h: seq<Turn>, items: seq<Option<Turn>>)
    requires |items| == |h| && forall i :: 0 <= i < |h| ==> items[i] == Some(h[i])
    ensures Usable(items) == h && (|h| <= HISTORY_MAX ==> Newest(Usable(items)) == h)
  {
    if h != [] {
      var n := |h| - 1;
      SavedItemsAreUsable(h[..n], items[..n]);
      assert h == h[..n] + [h[n]];
    }
  }

  // ---- the poll loop, the dispatches and crashes together ----

  datatype State = State(memory: File, disk: File, fetched: seq<int>, current: Option<int>, handled: seq<int>)

  const Start := State(File(None, []), File(None, []), [], None, [])

  datatype Event =
    | Fetch(ids: seq<int>)                    // getUpdates returned
    | Take                                    // next update: move the offset and save
    | Handle                                  // _handle_update on the taken update
    | Reply(user: string, reply: string)      // a dispatch records its exchange
    | Save                                    // any other _save_state
    | Restart                                 // the process dies anywhere; a new one loads the file

  /** What the Bot API promises about one answer: ascending ids, none below the offset. */
  ghost predicate Offered(ids: seq<int>, offset: Option<int>) {
    && (forall i, j :: 0 <= i < j < |ids| ==> ids[i] < ids[j])
    && (offset.Some? ==> forall i :: 0 <= i < |ids| ==> ids[i] >= offset.value)
  }

  ghost predicate Enabled(s: State, e: Event) {
    match e
    case Fetch(ids) => s.fetched == [] && s.current.None? && Offered(ids, s.memory.offset)
    case Take => s.fetched != [] && s.current.None?
    case Handle => s.current.Some?
    case _ => true
  }

  function SavedFile(m: File): File { File(m.offset, Clamped(m.history)) }

  ghost function Step(s: State, e: Event): State {
    if !Enabled(s, e) then s
    else match e
      case Fetch(ids) => s.(fetched := ids)
      case Take =>
        var m := s.memory.(offset := Some(s.fetched[0] + 1));
        s.(memory := m, disk := SavedFile(m), fetched := s.fetched[1..], current := Some(s.fetched[0]))
      case Handle => s.(handled := s.handled + [s.current.value], current := None)
      case Reply(user, reply) => s.(memory := s.memory.(history := Recorded(s.memory.history, user, reply)))
      case Save => s.(disk := SavedFile(s.memory))
      case Restart => s.(memory := s.disk, fetched := [], current := None)
  }

  ghost function Run(es: seq<Event>): State {
    if es == [] then Start else Step(Run(es[..|es| - 1]), es[|es| - 1])
  }

  ghost predicate Increasing(xs: seq<int>) { forall i, j :: 0 <= i < j < |xs| ==> xs[i] < xs[j] }

  ghost predicate Below(xs: seq<int>, bound: Option<int>) {
    if bound.None? then xs == [] else forall i :: 0 <= i < |xs| ==> xs[i] < bound.value
  }

  ghost predicate Valid(s: State) {
    && s.disk.offset == s.memory.offset
    && Offered(s.fetched, s.memory.offset)
    && Increasing(s.handled + (if s.current.Some? then [s.current.value] else []))
    && Below(s.handled + (if s.current.Some? then [s.current.value] else []), s.memory.offset)
    && Exchanges(s.memory.history) && Exchanges(s.disk.history)
  }

  lemma IncreasingPrefix(xs: seq<int>, more: seq<int>, bound: Option<int>)
    requires Increasing(xs + more) && Below(xs + more, bound)
    ensures Increasing(xs) && Below(xs, bound)
  {
    forall i | 0 <= i < |xs| ensures xs[i] == (xs + more)[i] { }
    forall i, j | 0 <= i < j < |xs| ensures xs[i] < xs[j] { assert (xs + more)[i] < (xs + more)[j]; }
    if bound.Some? {
      forall i | 0 <= i < |xs| ensures xs[i] < bound.value { assert (xs + more)[i] < bound.value; }
    } else {
      assert |xs| <= |xs + more|;
    }
  }

  lemma TakeStep(handled: seq<int>, fetched: seq<int>, offset: Option<int>)
    requires fetched != [] && Offered(fetched, offset) && Increasing(handled) && Below(handled, offset)
    ensures Offered(fetched[1..], Some(fetched[0] + 1))
    ensures Increasing(handled + [fetched[0]]) && Below(handled + [fetched[0]], Some(fetched[0] + 1))
  {
  }

  lemma ValidStep(s: State, e: Event)
    requires Valid(s)
    ensures Valid(Step(s, e))
    ensures s.disk.offset.Some? ==> Step(s, e).disk.offset.Some? && s.disk.offset.value <= Step(s, e).disk.offset.value
  {
    hide Clamped, Recorded, Increasing, Below;
    if Enabled(s, e) {
      match e
      case Fetch(ids) =>
      case Take =>
        ClampIdempotent(s.memory.history);
        assert s.handled + [] == s.handled;
        TakeStep(s.handled, s.fetched, s.memory.offset);
      case Handle => assert s.handled + [s.current.value] + [] == s.handled + [s.current.value];
      case Reply(user, reply) => RecordedKeepsExchanges(s.memory.history, user, reply);
      case Save => ClampIdempotent(s.memory.history);
      case Restart =>
        IncreasingPrefix(s.handled, if s.current.Some? then [s.current.value] else [], s.memory.offset);
        assert s.handled + [] == s.handled;
    }
  }

  lemma {:induction false} RunValid(es: seq<Event>)
    ensures Valid(Run(es))
  {
    if es != [] {
      RunValid(es[..|es| - 1]);
      ValidStep(Run(es[..|es| - 1]), es[|es| - 1]);
    }
  }

  /** Over any run with crashes, update ids are handled in strictly increasing order, so none twice. */
  lemma HandledAtMostOnce(es: seq<Event>)
    ensures Increasing(Run(es).handled)
  {
    RunValid(es);
    var s := Run(es);
    IncreasingPrefix(s.handled, if s.current.Some? then [s.current.value] else [], s.memory.offset);
  }

  /** The update is behind the saved offset and neither handled nor waiting. */
  ghost predicate Passed(s: State, u: int) {
    && s.memory.offset.Some? && s.memory.offset.value > u && s.disk.offset.Some? && s.disk.offset.value > u
    && s.current != Some(u) && u !in s.handled
    && forall i :: 0 <= i < |s.fetched| ==> s.fetched[i] > u
  }

  lemma PassedStep(s: State, e: Event, u: int)
    requires Passed(s, u)
    ensures Passed(Step(s, e), u)
  {
    hide Clamped, Recorded;
  }

  lemma {:induction false} TakenStaysPassed(es: seq<Event>, more: seq<Event>)
    requires Run(es).current.Some?
    ensures Passed(Run(es + [Restart] + more), Run(es).current.value)
  {
    var u, begin := Run(es).current.value, es + [Restart];
    if more == [] {
      RunSnoc(es, Restart);
      TakenIsBehind(es);
      assert begin + more == begin;
    } else {
      hide Step, Passed;
      var n := |more| - 1;
      TakenStaysPassed(es, more[..n]);
      PassedStep(Run(begin + more[..n]), more[n], u);
      assert begin + more == begin + more[..n] + [more[n]];
      RunSnoc(begin + more[..n], more[n]);
    }
  }

  /** At most once is all: an update that was taken and not yet handled when the process dies is never
      handled afterwards, because the offset was saved first. */
  lemma CrashLosesTaken(es: seq<Event>, more: seq<Event>)
    requires Run(es).current.Some?
    ensures Run(es).current.value !in Run(es + [Restart] + more).handled
    ensures var t := Run(es + [Restart]);
      t.memory == Run(es).disk && t.fetched == [] && t.current.None? && t.handled == Run(es).handled
  {
    TakenStaysPassed(es, more);
    RunSnoc(es, Restart);
  }

  lemma TakenIsBehind(es: seq<Event>)
    requires Run(es).current.Some?
    ensures var s := Run(es);
      s.disk.offset.Some? && s.disk.offset.value > s.current.value && s.current.value !in s.handled
  {
    RunValid(es);
    var s := Run(es);
    var all := s.handled + [s.current.value];
    assert all[|s.handled|] == s.current.value;
    forall i | 0 <= i < |s.handled| ensures s.handled[i] != s.current.value { assert all[i] < all[|s.handled|]; }
  }

  /** The offset in the state file never moves back. */
  lemma {:induction false} SavedOffsetNeverDecreases(es: seq<Event>, more: seq<Event>)
    ensures var a, b := Run(es).disk.offset, Run(es + more).disk.offset;
      a.Some? ==> b.Some? && a.value <= b.value
  {
    if more == [] {
      assert es + more == es;
    } else {
      var n := |more| - 1;
      SavedOffsetNeverDecreases(es, more[..n]);
      assert (es + more)[..|es + more| - 1] == es + more[..n];
      RunValid(es + more[..n]);
      ValidStep(Run(es + more[..n]), more[n]);
    }
  }

  /** Every saved history is a window of whole exchanges, and what a restart loads from it is the
      per-turn clamp of what was in memory at the last save, unchanged by further saves and loads. */
  lemma SavedHistoryIsWhole(es: seq<Event>)
    ensures Exchanges(Run(es).disk.history) && Exchanges(Run(es).memory.history)
    ensures Run(es + [Save, Restart]).memory == SavedFile(Run(es).memory)
    ensures Run(es + [Save, Restart] + [Save, Restart]).memory == Run(es + [Save, Restart]).memory
  {
    RunValid(es);
    TwoSteps(es);
    TwoSteps(es + [Save, Restart]);
    ClampIdempotent(Run(es).memory.history);
  }

  lemma TwoSteps(es: seq<Event>)
    ensures Run(es + [Save, Restart]) == Step(Step(Run(es), Save), Restart)
  {
    var one := es + [Save];
    assert one[..|one| - 1] == es;
    assert es + [Save, Restart] == one + [Restart] && (one + [Restart])[..|one|] == one;
  }

  // ---- nothing that was fetched is passed over ----

  lemma RunSnoc(es: seq<Event>, e: Event)
    ensures Run(es + [e]) == Step(Run(es), e)
  {
    assert (es + [e])[..|es|] == es;
  }

  /** Taking and handling n updates in turn. */
  function Handling(n: nat): seq<Event> { if n == 0 then [] else Handling(n - 1) + [Take] + [Handle] }

  lemma TakeAndHandle(s: State)
    requires s.fetched != [] && s.current.None?
    ensures var t := Step(Step(s, Take), Handle);
      t.handled == s.handled + [s.fetched[0]] && t.fetched == s.fetched[1..] && t.current.None? &&
      t.memory.history == s.memory.history &&
      t.memory.offset == Some(s.fetched[0] + 1) && t.disk.offset == t.memory.offset
  {
    hide Clamped;
  }

  lemma RunFetches(es: seq<Event>, ids: seq<int>)
    requires Run(es).fetched == [] && Run(es).current.None? && Offered(ids, Run(es).memory.offset)
    ensures Run(es + ([Fetch(ids)] + Handling(0))) == Run(es).(fetched := ids[0..])
    ensures Run(es).handled + ids[..0] == Run(es).handled
  {
    RunSnoc(es, Fetch(ids));
    assert [Fetch(ids)] + Handling(0) == [Fetch(ids)];
  }

  lemma RunHandles(es: seq<Event>, start: seq<Event>, n: nat)
    requires n > 0
    ensures Run(es + (start + Handling(n))) == Step(Step(Run(es + (start + Handling(n - 1))), Take), Handle)
  {
    var before := es + (start + Handling(n - 1));
    assert es + (start + Handling(n)) == before + [Take] + [Handle];
    hide Run, Step, Handling;
    RunSnoc(before, Take);
    RunSnoc(before + [Take], Handle);
  }

  lemma OneMore(handled: seq<int>, ids: seq<int>, n: nat)
    requires 0 < n <= |ids|
    ensures ids[n - 1..][0] == ids[n - 1] && ids[n - 1..][1..] == ids[n..]
    ensures handled + ids[..n - 1] + [ids[n - 1]] == handled + ids[..n]
  {
  }

  lemma {:induction false} HandlesFirst(es: seq<Event>, ids: seq<int>, n: nat)
    requires Run(es).fetched == [] && Run(es).current.None? && Offered(ids, Run(es).memory.offset) && n <= |ids|
    ensures var s, t := Run(es), Run(es + ([Fetch(ids)] + Handling(n)));
      t.handled == s.handled + ids[..n] && t.fetched == ids[n..] && t.current.None? &&
      t.memory.history == s.memory.history &&
      (n > 0 ==> t.memory.offset == Some(ids[n - 1] + 1) && t.disk.offset == t.memory.offset)
  {
    if n == 0 {
      RunFetches(es, ids);
    } else {
      var before := es + ([Fetch(ids)] + Handling(n - 1));
      RunHandles(es, [Fetch(ids)], n);
      hide Run, Step, Handling, Offered;
      HandlesFirst(es, ids, n - 1);
      TakeAndHandle(Run(before));
      OneMore(Run(es).handled, ids, n);
    }
  }

  /** When nothing crashes, every update that one answer brought is handled, in order, and the saved
      offset is behind the last of them. */
  lemma FetchedUpdatesAreHandled(es: seq<Event>, ids: seq<int>)
    requires Run(es).fetched == [] && Run(es).current.None? && Offered(ids, Run(es).memory.offset) && ids != []
    ensures var t := Run(es + ([Fetch(ids)] + Handling(|ids|)));
      t.handled == Run(es).handled + ids && t.fetched == [] && t.disk.offset == Some(ids[|ids| - 1] + 1)
  {
    HandlesFirst(es, ids, |ids|);
    assert ids[..|ids|] == ids;
  }
}
