/** core/alerts/router.py: where one alert candidate goes. */
module AlertRouter {
  import opened Wrappers
  import opened Text
  import opened Clock
  import opened Tally
  import opened AlertStore

  datatype Mode = Mute | Push | Other

  /** `muteUntil` is None when the column is empty or does not parse. */
  datatype TopicOverride = TopicOverride(mode: Mode, muteUntil: Option<int>)

  /** A quiet-hours window in microseconds of the local day. */
  datatype Window = Window(start: int, end: int) {
    predicate Valid() { 0 <= start < DAY && 0 <= end < DAY }
  }

  datatype Snapshot = Snapshot(telegramEnabled: bool, digestOnly: bool, maxPerDay: int, minScore: int,
                               quiet: Option<Window>)

  datatype Candidate = Candidate(key: Key, topic: string, score: Option<int>)

  /** What a caller hands in; empty texts stand for missing ones. */
  datatype Alert = Alert(kind: string, title: string, topic: string, source: string, score: Option<int>, seed: string,
                         key: string)

  /** `_derive_dedupe_key`: the text that is hashed. */
  function SeedText(a: Alert): string {
    if a.seed != "" then a.seed else a.kind + "|" + (a.topic + "|" + (a.source + "|" + a.title))
  }

  function Keyed(a: Alert): Candidate {
    Candidate(if a.key != "" then Given(a.key) else Derived(SeedText(a)), a.topic, a.score)
  }

  /** Without a key and a seed of their own, alerts are duplicates exactly when kind, topic, source and
      title agree, as long as the first three contain no bar. */
  lemma DerivedKeysIff(a: Alert, b: Alert)
    requires a.key == b.key == "" && a.seed == b.seed == ""
    requires '|' !in a.kind + a.topic + a.source && '|' !in b.kind + b.topic + b.source
    ensures Keyed(a).key == Keyed(b).key <==>
              a.kind == b.kind && a.topic == b.topic && a.source == b.source && a.title == b.title
  {
    if SeedText(a) == SeedText(b) {
      assert '|' !in a.kind && '|' !in a.topic && '|' !in a.source;
      assert '|' !in b.kind && '|' !in b.topic && '|' !in b.source;
      FirstPartUnique('|', a.kind, b.kind,
                      a.topic + "|" + (a.source + "|" + a.title), b.topic + "|" + (b.source + "|" + b.title));
      FirstPartUnique('|', a.topic, b.topic, a.source + "|" + a.title, b.source + "|" + b.title);
      FirstPartUnique('|', a.source, b.source, a.title, b.title);
    }
  }

  /** Two keys are one exactly when they are given as one, or derived from one seed, or, without seeds,
      from one joined text; a given key is never a derived one. */
  lemma SameKeyIff(a: Alert, b: Alert)
    ensures a.key != "" && b.key != "" ==> (Keyed(a).key == Keyed(b).key <==> a.key == b.key)
    ensures a.key == b.key == "" && a.seed != "" && b.seed != "" ==>
              (Keyed(a).key == Keyed(b).key <==> a.seed == b.seed)
    ensures a.key != "" && b.key == "" ==> Keyed(a).key != Keyed(b).key
    ensures Keyed(a).topic == a.topic && Keyed(a).score == a.score
  {
  }

  /** A seed replaces all of it, the kind included: alerts of different kinds with one seed are duplicates. */
  lemma SeedIgnoresKind(a: Alert, b: Alert)
    requires a.key == b.key == "" && a.seed == b.seed != ""
    ensures Keyed(a).key == Keyed(b).key
  {
  }

  /** One call of `route`: the candidate and the settings it read first. */
  datatype Job = Job(candidate: Candidate, settings: Snapshot)

  predicate BelowFloor(job: Job) {
    job.candidate.score.Some? && job.candidate.score.value < job.settings.minScore
  }

  predicate QuietActive(quiet: Option<Window>, localNow: int) {
    quiet.Some? && (
      var w := quiet.value;
      if w.start <= w.end then w.start <= localNow < w.end else localNow >= w.start || localNow < w.end)
  }

  /** Quiet hours are one arc of the clock face, also when the window wraps past midnight. */
  lemma QuietIsAnArc(w: Window, localNow: int)
    requires w.Valid() && 0 <= localNow < DAY
    ensures QuietActive(Some(w), localNow) <==> (localNow - w.start) % DAY < (w.end - w.start) % DAY
    ensures !QuietActive(None, localNow)
  {
    assert forall x: int :: 0 <= x < DAY ==> x % DAY == x;
    assert forall x: int :: -DAY < x < 0 ==> x % DAY == x + DAY;
  }

  datatype Verdict = Deliver(delivery: Delivery, reason: Reason) | AskCount

  /** Everything `route` decides between the override lookup and the push count. */
  function AfterOverride(s: Snapshot, ov: Option<TopicOverride>, now: Instant, localNow: int): Verdict {
    if ov.Some? && ov.value.mode == Mute then Deliver(Silent, TopicMuted)
    else if ov.Some? && ov.value.muteUntil.Some? && now < ov.value.muteUntil.value then
      Deliver(Silent, TopicMuteWindowActive)
    else if s.digestOnly then Deliver(Digest, DigestOnlyMode)
    else if ov.Some? && ov.value.mode == Push then
      if !s.telegramEnabled then Deliver(Digest, TelegramNotEnabled)
      else if QuietActive(s.quiet, localNow) then Deliver(Digest, Reason.QuietHours)
      else AskCount
    else Deliver(Digest, DefaultRoute)
  }

  function AfterCount(pushedToday: nat, s: Snapshot): Verdict {
    if pushedToday >= s.maxPerDay then Deliver(Digest, MaxPerDayCap) else Deliver(Telegram, PushTopicOverride)
  }

  function EffectiveOverride(c: Candidate, ov: Option<TopicOverride>): Option<TopicOverride> {
    if c.topic == "" then None else ov
  }

  /** The whole decision, given the two answers of the alert log. */
  function Decide(seen: bool, pushedToday: nat, job: Job, ov: Option<TopicOverride>, now: Instant,
                  localNow: int): (v: Verdict)
    ensures v.Deliver?
  {
    if seen then Deliver(Silent, DuplicateWithin24h)
    else if BelowFloor(job) then Deliver(Silent, BelowMinScore)
    else
      var v := AfterOverride(job.settings, EffectiveOverride(job.candidate, ov), now, localNow);
      if v.AskCount? then AfterCount(pushedToday, job.settings) else v
  }

  /** A push happens exactly when nothing objects, and nothing ever goes to the dashboard channel. */
  lemma PushedIff(seen: bool, pushedToday: nat, job: Job, ov: Option<TopicOverride>, now: Instant, localNow: int)
    ensures var d := Decide(seen, pushedToday, job, ov, now, localNow).delivery;
      && d != Dashboard
      && (d == Telegram <==>
        && !seen
        && (job.candidate.score == None || job.candidate.score.value >= job.settings.minScore)
        && job.candidate.topic != "" && ov.Some? && ov.value.mode == Push
        && (ov.value.muteUntil == None || ov.value.muteUntil.value <= now)
        && !job.settings.digestOnly && job.settings.telegramEnabled
        && !QuietActive(job.settings.quiet, localNow)
        && pushedToday < job.settings.maxPerDay)
  {
  }

  /** Silence means a duplicate, a low score, or a muted topic. */
  lemma SilentIff(seen: bool, pushedToday: nat, job: Job, ov: Option<TopicOverride>, now: Instant, localNow: int)
    ensures Decide(seen, pushedToday, job, ov, now, localNow).delivery == Silent <==>
      || seen
      || (job.candidate.score.Some? && job.candidate.score.value < job.settings.minScore)
      || (job.candidate.topic != "" && ov.Some? &&
          (ov.value.mode == Mute || (ov.value.muteUntil.Some? && now < ov.value.muteUntil.value)))
  {
  }

  /** Which reason is recorded, one by one, each beside the delivery it stands for. */
  lemma ReasonIs(seen: bool, pushedToday: nat, job: Job, ov: Option<TopicOverride>, now: Instant, localNow: int)
    ensures var v := Decide(seen, pushedToday, job, ov, now, localNow);
      var low := job.candidate.score.Some? && job.candidate.score.value < job.settings.minScore;
      var o := if job.candidate.topic != "" then ov else None;
      var muted := o.Some? && o.value.mode == Mute;
      var window := o.Some? && o.value.muteUntil.Some? && now < o.value.muteUntil.value;
      var quiet := QuietActive(job.settings.quiet, localNow);
      var push := !seen && !low && !muted && !window && !job.settings.digestOnly && o.Some? && o.value.mode == Push;
      && (v.reason == DuplicateWithin24h <==> seen)
      && (v.reason == BelowMinScore <==> !seen && low)
      && (v.reason == TopicMuted <==> !seen && !low && muted)
      && (v.reason == TopicMuteWindowActive <==> !seen && !low && !muted && window)
      && (v.reason == DigestOnlyMode <==> !seen && !low && !muted && !window && job.settings.digestOnly)
      && (v.reason == TelegramNotEnabled <==> push && !job.settings.telegramEnabled)
      && (v.reason == Reason.QuietHours <==> push && job.settings.telegramEnabled && quiet)
      && (v.reason == MaxPerDayCap <==>
            push && job.settings.telegramEnabled && !quiet && pushedToday >= job.settings.maxPerDay)
      && (v.reason == PushTopicOverride <==> v.delivery == Telegram)
      && (v.reason == DefaultRoute <==> !seen && !low && !muted && !window && !job.settings.digestOnly && !push)
  {
  }

  /** The row one uninterrupted call of `route` appends. */
  function Routed(rows: seq<Row>, job: Job, ov: Option<TopicOverride>, now: Instant, localNow: int): Row {
    var seen := Seen(rows, job.candidate.key, Cutoff(now));
    var pushed := Count(rows, PushSince(StartOfDay(now)));
    var v := Decide(seen, pushed, job, ov, now, localNow);
    Row(job.candidate.key, v.delivery, v.reason, now)
  }

  /** Of two alerts routed one after the other on one log, in which the second one's key was not
      recorded within its last 24 hours, the second is a duplicate exactly when the keys are one and no
      more than 24 hours lie between them. */
  lemma SecondIsDuplicateIff(rows: seq<Row>, a: Alert, b: Alert, s: Snapshot, u: Snapshot, ov: Option<TopicOverride>,
                             pv: Option<TopicOverride>, earlier: Instant, now: Instant, la: int, lb: int)
    requires earlier <= now && now >= MIN_INSTANT + DAY && !Seen(rows, Keyed(b).key, Cutoff(now))
    ensures var first := Routed(rows, Job(Keyed(a), s), ov, earlier, la);
      var second := Routed(rows + [first], Job(Keyed(b), u), pv, now, lb);
      second.reason == DuplicateWithin24h <==> Keyed(a).key == Keyed(b).key && now - earlier <= DAY
  {
    var first := Routed(rows, Job(Keyed(a), s), ov, earlier, la);
    assert (rows + [first])[|rows|] == first && first.key == Keyed(a).key && first.at == earlier;
    hide Decide, SeedText, Keyed;
    forall i | 0 <= i < |rows| ensures (rows + [first])[i] == rows[i] { }
    ReasonIs(Seen(rows + [first], Keyed(b).key, Cutoff(now)), Count(rows + [first], PushSince(StartOfDay(now))),
             Job(Keyed(b), u), pv, now, lb);
  }

  class Router {
    const store: Store

    constructor (store: Store)
      ensures this.store == store
    {
      this.store := store;
    }

    /** The checks of `route`, in the source's order. */
    method Choose(job: Job, ov: Option<TopicOverride>, now: Instant, localNow: int) returns (v: Verdict)
      ensures v == Decide(Seen(store.rows, job.candidate.key, Cutoff(now)),
                          Count(store.rows, PushSince(StartOfDay(now))), job, ov, now, localNow)
    {
      var seen := store.AlreadySeen(job.candidate.key, now);
      if seen { return Deliver(Silent, DuplicateWithin24h); }
      if BelowFloor(job) { return Deliver(Silent, BelowMinScore); }
      var over: Option<TopicOverride> := None;
      if job.candidate.topic != "" { over := ov; }
      if over.Some? {
        if over.value.mode == Mute { return Deliver(Silent, TopicMuted); }
        if over.value.muteUntil.Some? && now < over.value.muteUntil.value {
          return Deliver(Silent, TopicMuteWindowActive);
        }
      }
      if job.settings.digestOnly { return Deliver(Digest, DigestOnlyMode); }
      if over.Some? && over.value.mode == Push {
        if !job.settings.telegramEnabled { return Deliver(Digest, TelegramNotEnabled); }
        if QuietActive(job.settings.quiet, localNow) { return Deliver(Digest, Reason.QuietHours); }
        var pushed := store.CountPushesToday(now);
        if pushed >= job.settings.maxPerDay { return Deliver(Digest, MaxPerDayCap); }
        return Deliver(Telegram, PushTopicOverride);
      }
      v := Deliver(Digest, DefaultRoute);
    }

    /** One call with no other call in between. */
    method Route(job: Job, ov: Option<TopicOverride>, now: Instant, localNow: int) returns (row: Row)
      modifies store
      ensures row == Routed(old(store.rows), job, ov, now, localNow)
      ensures store.rows == old(store.rows) + [row]
    {
      var v := Choose(job, ov, now, localNow);
      row := store.Insert(job.candidate.key, v.delivery, v.reason, now);
    }

    /** `route` from the alert it is given. */
    method RouteAlert(a: Alert, settings: Snapshot, ov: Option<TopicOverride>, now: Instant, localNow: int)
      returns (row: Row)
      modifies store
      ensures row == Routed(old(store.rows), Job(Keyed(a), settings), ov, now, localNow)
      ensures store.rows == old(store.rows) + [row]
    {
      var key := Given(a.key);
      if a.key == "" {
        var text := a.seed;
        if text == "" { text := a.kind + "|" + (a.topic + "|" + (a.source + "|" + a.title)); }
        key := Derived(text);
      }
      row := Route(Job(Candidate(key, a.topic, a.score), settings), ov, now, localNow);
    }
  }
}
