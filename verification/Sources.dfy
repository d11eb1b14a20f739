/** core/intelligence/sources.py: the fields of a source row that polling reads and writes.
    Instants are microseconds; None for an instant that is absent or unreadable. */
module Sources {
  import opened Wrappers

  const POLL_FLOOR := 60
  const POLL_CEILING := 604_800

  datatype Source = Source(poll: nat, failures: nat, last: Option<int>, mute: Option<int>, manual: bool, enabled: bool)

  datatype Outcome = Worked | NotImplemented | Errored

  /** `_validate_poll`, on a value that converted to an integer. */
  function ValidPoll(seconds: int): Option<nat> {
    if POLL_FLOOR <= seconds <= POLL_CEILING then Some(seconds) else None
  }

  /** `record_fetch_outcome` with the flags `run_source` passes for each outcome. */
  function Recorded(s: Source, o: Outcome, now: int): Source {
    s.(last := Some(now),
       failures := match o case Worked => 0 case NotImplemented => s.failures case Errored => s.failures + 1)
  }

  /** `update`: a refused poll interval leaves the row alone. */
  function Edited(s: Source, poll: Option<int>, mute: Option<int>, enabled: bool): Source {
    if poll.None? then s.(mute := mute, enabled := enabled)
    else if ValidPoll(poll.value).None? then s
    else s.(poll := ValidPoll(poll.value).value, mute := mute, enabled := enabled)
  }

  /** Poll intervals from one minute to seven days are taken, all others refuse the whole edit. */
  lemma EditedIs(s: Source, poll: Option<int>, mute: Option<int>, enabled: bool)
    ensures poll.Some? && !(60 <= poll.value <= 604_800) ==> Edited(s, poll, mute, enabled) == s
    ensures poll.Some? && 60 <= poll.value <= 604_800 ==>
              Edited(s, poll, mute, enabled) == s.(poll := poll.value, mute := mute, enabled := enabled)
    ensures poll.None? ==> Edited(s, poll, mute, enabled) == s.(mute := mute, enabled := enabled)
  {
  }

  class SourceRow {
    var row: Source

    constructor (r: Source)
      ensures row == r
    {
      row := r;
    }

    method RecordFetchOutcome(now: int, incrementFailures: bool, resetFailures: bool)
      modifies this
      ensures resetFailures ==> row == Recorded(old(row), Worked, now)
      ensures !resetFailures && incrementFailures ==> row == Recorded(old(row), Errored, now)
      ensures !resetFailures && !incrementFailures ==> row == Recorded(old(row), NotImplemented, now)
      ensures row == old(row).(last := Some(now),
                               failures := if resetFailures then 0
                                           else if incrementFailures then old(row).failures + 1 else old(row).failures)
    {
      row := row.(last := Some(now));
      if resetFailures {
        row := row.(failures := 0);
      } else if incrementFailures {
        row := row.(failures := row.failures + 1);
      }
    }
  }
}
