/** Push alerts that are sent and not waited for: which raises are sent, which are counted, and which resolutions
    are told. The clock does not go back; whether a channel is there and the category is on is a parameter of
    every call. */
module Alerts {

  const HOUR := 3_600_000_000_000
  const DEDUPE := 6 * HOUR
  const SINCE := 24 * HOUR

  datatype Key = Key(text: string)

  /** What is remembered of a sent alert: its time, the raises counted since, and whether its end was sent. */
  datatype Record = Record(at: int, repeats: nat, resolved: bool)

  datatype Sent = Sent(key: Key, at: int)

  predicate IsOld(r: Record, now: int) {
    r.resolved && now - r.at >= SINCE
  }

  predicate IsHeldBack(sent: map<Key, Record>, key: Key, now: int) {
    key in sent && now - sent[key].at < DEDUPE
  }

  /** The records that are not forgotten. */
  function Kept(sent: map<Key, Record>, now: int): map<Key, Record> {
    map key | key in sent && !IsOld(sent[key], now) :: sent[key]
  }

  function Raised(sent: map<Key, Record>, key: Key, now: int): map<Key, Record> {
    if IsHeldBack(sent, key, now) then sent[key := sent[key].(repeats := sent[key].repeats + 1)]
    else Kept(sent, now)[key := Record(now, 0, false)]
  }

  predicate IsPending(sent: map<Key, Record>, key: Key) {
    key in sent && !sent[key].resolved
  }

  function Resolved(sent: map<Key, Record>, key: Key): map<Key, Record> {
    if IsPending(sent, key) then sent[key := sent[key].(resolved := true)] else sent
  }

  class Hub {
    var sent: map<Key, Record>

    constructor ()
      ensures sent == map[]
    {
      sent := map[];
    }

    /** Whether a message goes out, and how often the alert came back that it says so of. */
    method Raise(key: Key, now: int, isOn: bool) returns (sends: bool, again: nat)
      modifies this
      ensures sends == (isOn && !IsHeldBack(old(sent), key, now))
      ensures sent == if isOn then Raised(old(sent), key, now) else old(sent)
      ensures again == if sends && key in old(sent) && now - old(sent)[key].at < SINCE then old(sent)[key].repeats else 0
    {
      again := 0;
      if !isOn {
        return false, 0;
      }
      if key in sent && now - sent[key].at < DEDUPE {
        sent := sent[key := sent[key].(repeats := sent[key].repeats + 1)];
        return false, 0;
      }
      if key in sent && sent[key].repeats > 0 && now - sent[key].at < SINCE {
        again := sent[key].repeats;
      }
      var keys := sent.Keys;
      while keys != {}
        modifies this`sent
        invariant keys <= sent.Keys <= old(sent).Keys
        invariant forall k :: k in sent ==> sent[k] == old(sent)[k]
        invariant forall k :: k in old(sent) && k !in keys ==> (k in sent <==> !IsOld(old(sent)[k], now))
        decreases |keys|
      {
        var k :| k in keys;
        if sent[k].resolved && now - sent[k].at >= SINCE {
          sent := sent - {k};
        }
        keys := keys - {k};
      }
      assert sent == Kept(old(sent), now);
      sent := sent[key := Record(now, 0, false)];
      sends := true;
    }

    /** Whether the message that it is over goes out. */
    method Resolve(key: Key, isOn: bool) returns (sends: bool)
      modifies this
      ensures sent == Resolved(old(sent), key) && sends == (isOn && IsPending(old(sent), key))
    {
      var pending := key in sent && !sent[key].resolved;
      if pending {
        sent := sent[key := sent[key].(resolved := true)];
      }
      sends := pending && isOn;
    }
  }

  // ---------------------------------------------------------------- whole runs

  datatype Event = Raise(key: Key, now: int, isOn: bool) | Resolve(key: Key, isOn: bool)

  /** What was sent, what was only counted, which resolutions were told, and which raises a channel was there for. */
  datatype Story = Story(sent: map<Key, Record>, sends: seq<Sent>, counted: seq<Key>, told: seq<Key>, raised: seq<Key>)

  function Told(events: seq<Event>): Story {
    if events == [] then Story(map[], [], [], [], []) else After(Told(events[..|events| - 1]), events[|events| - 1])
  }

  function After(s: Story, e: Event): Story {
    match e
    case Raise(key, now, isOn) =>
      if !isOn then s
      else if IsHeldBack(s.sent, key, now)
      then s.(sent := Raised(s.sent, key, now), counted := s.counted + [key], raised := s.raised + [key])
      else s.(sent := Raised(s.sent, key, now), sends := s.sends + [Sent(key, now)], raised := s.raised + [key])
    case Resolve(key, isOn) =>
      s.(sent := Resolved(s.sent, key), told := if isOn && IsPending(s.sent, key) then s.told + [key] else s.told)
  }

  /** The clock does not go back, and is no later than `clock`. */
  predicate ClockIsSteady(events: seq<Event>, clock: int) {
    events == [] ||
      var last := events[|events| - 1];
      if last.Raise? then last.now <= clock && ClockIsSteady(events[..|events| - 1], last.now)
      else ClockIsSteady(events[..|events| - 1], clock)
  }

  function Times(key: Key, keys: seq<Key>): nat {
    if keys == [] then 0 else Times(key, keys[..|keys| - 1]) + if keys[|keys| - 1] == key then 1 else 0
  }

  function TimesSent(key: Key, sends: seq<Sent>): nat {
    if sends == [] then 0 else TimesSent(key, sends[..|sends| - 1]) + if sends[|sends| - 1].key == key then 1 else 0
  }

  lemma {:induction false} TimesSnoc(key: Key, keys: seq<Key>, other: Key)
    ensures Times(key, keys + [other]) == Times(key, keys) + if other == key then 1 else 0
  {
    assert (keys + [other])[..|keys|] == keys;
  }

  lemma {:induction false} TimesSentSnoc(key: Key, sends: seq<Sent>, send: Sent)
    ensures TimesSent(key, sends + [send]) == TimesSent(key, sends) + if send.key == key then 1 else 0
  {
    assert (sends + [send])[..|sends|] == sends;
  }

  // ---------------------------------------------------------------- six hours

  /** Two messages of one alert are at least six hours apart. */
  ghost predicate AreApart(sends: seq<Sent>) {
    forall i, j :: 0 <= i < j < |sends| && sends[i].key == sends[j].key ==> sends[j].at - sends[i].at >= DEDUPE
  }

  /** A record is of the last message of its alert, and one that is forgotten was sent a day ago. */
  ghost predicate RecordsHold(s: Story, clock: int) {
    && (forall i :: 0 <= i < |s.sends| && s.sends[i].key in s.sent ==> s.sends[i].at <= s.sent[s.sends[i].key].at)
    && (forall i :: 0 <= i < |s.sends| && s.sends[i].key !in s.sent ==> clock - s.sends[i].at >= SINCE)
  }

  /** A record is of a message. */
  ghost predicate RecordsAreSent(s: Story) {
    forall key :: key in s.sent ==> Sent(key, s.sent[key].at) in s.sends
  }

  lemma {:induction false} RecordsAlwaysAreSent(events: seq<Event>)
    ensures RecordsAreSent(Told(events))
  {
    if events != [] {
      RecordsAlwaysAreSent(events[..|events| - 1]);
    }
  }

  lemma {:induction false} RaiseKeepsRecords(s: Story, key: Key, now: int, clock: int)
    requires RecordsHold(s, clock) && AreApart(s.sends) && clock <= now
    ensures var t := After(s, Raise(key, now, true)); RecordsHold(t, now) && AreApart(t.sends)
  {
  }

  lemma {:induction false} StoryIsApart(events: seq<Event>, clock: int)
    requires ClockIsSteady(events, clock)
    ensures RecordsHold(Told(events), clock) && AreApart(Told(events).sends)
  {
    if events != [] {
      var before, last := events[..|events| - 1], events[|events| - 1];
      if last.Raise? {
        StoryIsApart(before, last.now);
        if last.isOn {
          RaiseKeepsRecords(Told(before), last.key, last.now, last.now);
        }
      } else {
        StoryIsApart(before, clock);
      }
    }
  }

  /** When a raise goes out, in any run whose clock does not go back: a channel is there, and no message of the alert was
      sent in the six hours before. It is counted when one was, and nothing becomes of it without a channel. */
  lemma {:induction false} SentExactly(events: seq<Event>, key: Key, now: int, isOn: bool)
    requires ClockIsSteady(events, now)
    ensures
      var s, t := Told(events), After(Told(events), Raise(key, now, isOn));
      var lately := exists i :: 0 <= i < |s.sends| && s.sends[i].key == key && now - s.sends[i].at < 6 * HOUR;
      && t.sends == (if isOn && !lately then s.sends + [Sent(key, now)] else s.sends)
      && t.counted == (if isOn && lately then s.counted + [key] else s.counted)
      && t.told == s.told
  {
    StoryIsApart(events, now);
    RecordsAlwaysAreSent(events);
    var s := Told(events);
    if key in s.sent {
      var i :| 0 <= i < |s.sends| && s.sends[i] == Sent(key, s.sent[key].at);
      assert s.sends[i].key == key;
    }
  }

  /** Whether a message of the alert was sent, and it was not said to be over since. */
  predicate IsUnderWay(events: seq<Event>, key: Key) {
    events != [] &&
      var before, last := events[..|events| - 1], events[|events| - 1];
      if last.Resolve? then last.key != key && IsUnderWay(before, key)
      else IsUnderWay(before, key) || (last.key == key && |Told(events).sends| > |Told(before).sends|)
  }

  /** A resolution goes out exactly when one was under way and a channel is there; without one it is over all the same. */
  lemma {:induction false} ToldExactly(events: seq<Event>, clock: int, key: Key, isOn: bool)
    requires ClockIsSteady(events, clock)
    ensures IsPending(Told(events).sent, key) <==> IsUnderWay(events, key)
    ensures After(Told(events), Resolve(key, isOn)).told
         == if isOn && IsUnderWay(events, key) then Told(events).told + [key] else Told(events).told
  {
    if events != [] {
      var before, last := events[..|events| - 1], events[|events| - 1];
      ToldExactly(before, if last.Raise? then last.now else clock, key, isOn);
    }
  }

  // ---------------------------------------------------------------- counts

  /** One resolution at most is told for each message, and every raise that a channel was there for was sent or
      counted. */
  predicate CountsHold(s: Story, key: Key) {
    && Times(key, s.told) + (if IsPending(s.sent, key) then 1 else 0) <= TimesSent(key, s.sends)
    && Times(key, s.raised) == TimesSent(key, s.sends) + Times(key, s.counted)
  }

  lemma {:induction false} StepKeepsCounts(s: Story, e: Event, key: Key)
    requires CountsHold(s, key)
    ensures CountsHold(After(s, e), key)
  {
    match e
    case Raise(other, now, isOn) =>
      TimesSnoc(key, s.raised, other);
      TimesSnoc(key, s.counted, other);
      TimesSentSnoc(key, s.sends, Sent(other, now));
    case Resolve(other, _) => TimesSnoc(key, s.told, other);
  }

  lemma {:induction false} CountsAlwaysHold(events: seq<Event>, key: Key)
    ensures CountsHold(Told(events), key)
  {
    if events != [] {
      CountsAlwaysHold(events[..|events| - 1], key);
      StepKeepsCounts(Told(events[..|events| - 1]), events[|events| - 1], key);
    }
  }

  /** In every run whose clock does not go back: two messages of one alert are six hours apart, though old records
      are forgotten; its resolutions are never more than its messages; and what was raised was sent or counted. */
  lemma {:induction false} SentOrCounted(events: seq<Event>, clock: int, key: Key)
    requires ClockIsSteady(events, clock)
    ensures AreApart(Told(events).sends)
    ensures Times(key, Told(events).told) <= TimesSent(key, Told(events).sends)
    ensures Times(key, Told(events).raised) == TimesSent(key, Told(events).sends) + Times(key, Told(events).counted)
  {
    StoryIsApart(events, clock);
    CountsAlwaysHold(events, key);
  }
}
