/**
 Notification de-duplication: a bounded, expiring, evicting cache compared with
 an unbounded log of the last delivery under each key. The digest of an alert is
 stood for by the text it digests.
 */
module NotificationGateway {
  import opened Wrappers

  datatype Severity = Info | Success | Attention | Failure

  datatype Sound = Silent | Done | Request

  datatype Position = TopLeft | TopRight | BottomLeft | BottomRight

  datatype Alert = Alert(
    key: string,
    severity: Severity,
    title: string,
    body: Option<string>,
    position: Option<Position>,
    window: Option<int>)

  datatype Delivery = Delivery(shown: bool, reason: string)

  datatype Outcome = Shown | NotShown | Suppressed

  datatype AlertResult = AlertResult(outcome: Outcome, reason: string, sound: Sound, fingerprint: string)

  datatype NotifyError = InvalidAlert | InvalidClock | InvalidWindow | DeliveryFailed

  const MAX_SAFE_INTEGER := 9_007_199_254_740_991
  const ONE_DAY := 86_400_000
  const NUL: char := '\0'

  // ---------------------------------------------------------------- alerts

  predicate IsKeyCharacter(c: char) {
    'A' <= c <= 'Z' || 'a' <= c <= 'z' || '0' <= c <= '9' || c in {':', '.', '_', '/', '-'}
  }

  predicate IsBoundedText(s: string, maximum: nat) {
    1 <= |s| <= maximum && NUL !in s
  }

  predicate IsValidAlert(alert: Alert) {
    && 1 <= |alert.key| <= 256 && (forall c :: c in alert.key ==> IsKeyCharacter(c))
    && IsBoundedText(alert.title, 256) && alert.title[0] != '-'
    && (alert.body.Some? ==> IsBoundedText(alert.body.value, 4096))
  }

  function SoundOf(severity: Severity): Sound {
    match severity
    case Info => Silent
    case Success => Done
    case _ => Request
  }

  function SeverityText(severity: Severity): string
  {
    match severity
    case Info => "info"
    case Success => "success"
    case Attention => "attention"
    case Failure => "failure"
  }

  function PositionText(position: Position): string
  {
    match position
    case TopLeft => "top-left"
    case TopRight => "top-right"
    case BottomLeft => "bottom-left"
    case BottomRight => "bottom-right"
  }

  function BodyText(alert: Alert): string {
    if alert.body.Some? then alert.body.value else ""
  }

  function PositionOf(alert: Alert): Position {
    if alert.position.Some? then alert.position.value else BottomRight
  }

  function Fingerprint(alert: Alert): string {
    SeverityText(alert.severity) + ([NUL] + (alert.title + ([NUL] + (BodyText(alert)
      + ([NUL] + PositionText(PositionOf(alert)))))))
  }

  // ---------------------------------------------------------------- the cache

  datatype Entry = Entry(key: string, fingerprint: string, expiresAt: nat)

  function Unexpired(entries: seq<Entry>, now: nat): seq<Entry> {
    if entries == [] then []
    else
      var last := entries[|entries| - 1];
      Unexpired(entries[..|entries| - 1], now) + (if last.expiresAt <= now then [] else [last])
  }

  function Without(entries: seq<Entry>, key: string): seq<Entry> {
    if entries == [] then []
    else
      var last := entries[|entries| - 1];
      Without(entries[..|entries| - 1], key) + (if last.key == key then [] else [last])
  }

  /** Drop the oldest entries until another one fits. */
  function Evicted(entries: seq<Entry>, maxEntries: nat): seq<Entry> {
    if |entries| >= maxEntries && entries != [] then Evicted(entries[1..], maxEntries) else entries
  }

  predicate Remembers(entries: seq<Entry>, key: string, fingerprint: string, now: nat) {
    exists e :: e in entries && e.key == key && e.fingerprint == fingerprint && e.expiresAt > now
  }

  function WindowOf(alert: Alert, defaultWindow: int): int {
    if alert.window.Some? then alert.window.value else defaultWindow
  }

  /** The checks before anything is looked up. */
  function Refusal(alert: Alert, now: int, defaultWindow: int): Option<NotifyError> {
    if !IsValidAlert(alert) then Some(InvalidAlert)
    else if now < 0 || now > MAX_SAFE_INTEGER then Some(InvalidClock)
    else if !(1 <= WindowOf(alert, defaultWindow) <= ONE_DAY) then Some(InvalidWindow)
    else None
  }

  /** The delivery's entry comes last, in place of an older one under its key. */
  function Recorded(live: seq<Entry>, entry: Entry, maxEntries: nat): seq<Entry> {
    Evicted(Without(live, entry.key), maxEntries) + [entry]
  }

  datatype Call = Call(alert: Alert, now: int, delivery: Option<Delivery>)

  function Duplicate(alert: Alert): AlertResult {
    AlertResult(Suppressed, "duplicate", SoundOf(alert.severity), Fingerprint(alert))
  }

  function Delivered(alert: Alert, delivery: Delivery): AlertResult {
    AlertResult(if delivery.shown then Shown else NotShown, delivery.reason, SoundOf(alert.severity),
      Fingerprint(alert))
  }

  /** One notification: its result and the entries it leaves. */
  function Notified(entries: seq<Entry>, call: Call, defaultWindow: int, maxEntries: nat)
    : (Result<AlertResult, NotifyError>, seq<Entry>)
  {
    var alert, refusal := call.alert, Refusal(call.alert, call.now, defaultWindow);
    if refusal.Some? then (Err(refusal.value), entries)
    else
      NotifiedLive(Unexpired(entries, call.now), call,
                   Entry(alert.key, Fingerprint(alert), call.now + WindowOf(alert, defaultWindow)), maxEntries)
  }

  /** The same against unexpired entries, for a call whose delivery would leave `entry`. */
  function NotifiedLive(live: seq<Entry>, call: Call, entry: Entry, maxEntries: nat)
    : (Result<AlertResult, NotifyError>, seq<Entry>)
    requires call.now >= 0
  {
    if Remembers(live, entry.key, entry.fingerprint, call.now) then (Ok(Duplicate(call.alert)), live)
    else if call.delivery.None? then (Err(DeliveryFailed), live)
    else (Ok(Delivered(call.alert, call.delivery.value)), Recorded(live, entry, maxEntries))
  }

  predicate DistinctKeys(entries: seq<Entry>) {
    forall i, j :: 0 <= i < j < |entries| ==> entries[i].key != entries[j].key
  }

  // ---------------------------------------------------------------- what is refused, and what is heard

  /** Letters, digits, and the five marks a key may hold, by their codes. */
  ghost predicate MayBeInKey(c: char) {
    var code := c as int;
    || 65 <= code < 91 || 97 <= code < 123 || 48 <= code < 58
    || c == ':' || c == '.' || c == '_' || c == '/' || c == '-'
  }

  ghost predicate IsFaultyText(s: string, maximum: nat) {
    |s| == 0 || |s| > maximum || exists i :: 0 <= i < |s| && s[i] == NUL
  }

  /** An alert is refused exactly for its key, its title or its body; then for the clock; then for its window. */
  lemma RefusedIff(alert: Alert, now: int, defaultWindow: int)
    ensures var faulty :=
        || |alert.key| == 0 || |alert.key| > 256 || (exists i :: 0 <= i < |alert.key| && !MayBeInKey(alert.key[i]))
        || IsFaultyText(alert.title, 256) || alert.title[0] == '-'
        || (alert.body.Some? && IsFaultyText(alert.body.value, 4096));
      var window := if alert.window.Some? then alert.window.value else defaultWindow;
      Refusal(alert, now, defaultWindow) ==
        if faulty then Some(InvalidAlert)
        else if now < 0 || now >= 0x20_0000_0000_0000 then Some(InvalidClock)
        else if window < 1 || window > 24 * 60 * 60 * 1000 then Some(InvalidWindow)
        else None
  {
    assert forall c: char :: IsKeyCharacter(c) <==> MayBeInKey(c);
    if forall i :: 0 <= i < |alert.key| ==> MayBeInKey(alert.key[i]) {
      assert forall c :: c in alert.key ==> IsKeyCharacter(c);
    }
  }

  /** A suppressed alert is a duplicate; any other answer says what the delivery said. */
  lemma AnswerSaysWhatHappened(entries: seq<Entry>, call: Call, defaultWindow: int, maxEntries: nat)
    ensures var r := Notified(entries, call, defaultWindow, maxEntries).0;
      && (r == Err(DeliveryFailed) ==> call.delivery.None?)
      && (r.Ok? && r.value.outcome == Suppressed ==> r.value.reason == "duplicate")
      && (r.Ok? && r.value.outcome != Suppressed ==>
            && call.delivery.Some? && r.value.reason == call.delivery.value.reason
            && (r.value.outcome == Shown <==> call.delivery.value.shown))
  {
  }

  /** Information makes no sound, a success its own, and whatever needs somebody asks for them. */
  lemma SoundFollowsSeverity(entries: seq<Entry>, call: Call, defaultWindow: int, maxEntries: nat)
    ensures var r := Notified(entries, call, defaultWindow, maxEntries).0;
      r.Ok? ==>
        && (r.value.sound == Silent <==> call.alert.severity == Info)
        && (r.value.sound == Done <==> call.alert.severity == Success)
        && (r.value.sound == Request <==> call.alert.severity == Attention || call.alert.severity == Failure)
  {
  }

  class DeduplicatingNotificationGateway {
    const defaultWindow: int
    const maxEntries: nat
    var entries: seq<Entry>

    ghost predicate Valid()
      reads this
    {
      maxEntries >= 1 && |entries| <= maxEntries && DistinctKeys(entries)
    }

    constructor (defaultWindow: int, maxEntries: nat)
      requires defaultWindow >= 1 && maxEntries >= 1
      ensures Valid() && entries == []
      ensures this.defaultWindow == defaultWindow && this.maxEntries == maxEntries
    {
      this.defaultWindow := defaultWindow;
      this.maxEntries := maxEntries;
      entries := [];
    }

    method RemoveExpired(now: nat)
      modifies this`entries
      ensures entries == Unexpired(old(entries), now)
    {
      var kept: seq<Entry> := [];
      for i := 0 to |entries|
        invariant entries == old(entries) && kept == Unexpired(entries[..i], now)
      {
        assert entries[..i + 1][..i] == entries[..i];
        if entries[i].expiresAt > now {
          kept := kept + [entries[i]];
        }
      }
      assert entries[..|entries|] == entries;
      entries := kept;
    }

    method Delete(key: string)
      modifies this`entries
      ensures entries == Without(old(entries), key)
    {
      var kept: seq<Entry> := [];
      for i := 0 to |entries|
        invariant entries == old(entries) && kept == Without(entries[..i], key)
      {
        assert entries[..i + 1][..i] == entries[..i];
        if entries[i].key != key {
          kept := kept + [entries[i]];
        }
      }
      assert entries[..|entries|] == entries;
      entries := kept;
    }

    method NotifySerial(alert: Alert, now: int, delivery: Option<Delivery>)
      returns (r: Result<AlertResult, NotifyError>)
      requires Valid()
      modifies this`entries
      ensures Valid()
      ensures (r, entries) == Notified(old(entries), Call(alert, now, delivery), defaultWindow, maxEntries)
    {
      NotifiedKeepsBound(entries, Call(alert, now, delivery), defaultWindow, maxEntries);
      var refusal := Refusal(alert, now, defaultWindow);
      if refusal.Some? {
        return Err(refusal.value);
      }
      RemoveExpired(now);
      r := NotifyUnlessRemembered(Call(alert, now, delivery),
                                  Entry(alert.key, Fingerprint(alert), now + WindowOf(alert, defaultWindow)));
    }

    method NotifyUnlessRemembered(call: Call, entry: Entry) returns (r: Result<AlertResult, NotifyError>)
      requires maxEntries >= 1 && call.now >= 0
      modifies this`entries
      ensures (r, entries) == NotifiedLive(old(entries), call, entry, maxEntries)
    {
      if Remembers(entries, entry.key, entry.fingerprint, call.now) {
        return Ok(Duplicate(call.alert));
      }
      if call.delivery.None? {
        return Err(DeliveryFailed);
      }
      Record(entry);
      return Ok(Delivered(call.alert, call.delivery.value));
    }

    method Record(entry: Entry)
      requires maxEntries >= 1
      modifies this`entries
      ensures entries == Recorded(old(entries), entry, maxEntries)
    {
      Delete(entry.key);
      ghost var deleted := entries;
      while |entries| >= maxEntries && entries != []
        invariant Evicted(entries, maxEntries) == Evicted(deleted, maxEntries)
        decreases |entries|
      {
        entries := entries[1..];
      }
      entries := entries + [entry];
    }
  }

  // ---------------------------------------------------------------- the cache stays bounded

  lemma {:induction false} UnexpiredMembers(entries: seq<Entry>, now: nat)
    ensures forall e :: e in Unexpired(entries, now) <==> e in entries && e.expiresAt > now
    ensures |Unexpired(entries, now)| <= |entries|
    ensures DistinctKeys(entries) ==> DistinctKeys(Unexpired(entries, now))
  {
    if entries != [] {
      var init, last := entries[..|entries| - 1], entries[|entries| - 1];
      assert entries == init + [last];
      UnexpiredMembers(init, now);
    }
  }

  lemma {:induction false} WithoutMembers(entries: seq<Entry>, key: string)
    ensures forall e :: e in Without(entries, key) <==> e in entries && e.key != key
    ensures |Without(entries, key)| <= |entries|
    ensures DistinctKeys(entries) ==> DistinctKeys(Without(entries, key))
  {
    if entries != [] {
      var init, last := entries[..|entries| - 1], entries[|entries| - 1];
      assert entries == init + [last];
      WithoutMembers(init, key);
    }
  }

  lemma {:induction false} EvictedMembers(entries: seq<Entry>, maxEntries: nat)
    requires maxEntries >= 1
    ensures forall e :: e in Evicted(entries, maxEntries) ==> e in entries
    ensures |Evicted(entries, maxEntries)| < maxEntries
    ensures |entries| < maxEntries ==> Evicted(entries, maxEntries) == entries
    ensures DistinctKeys(entries) ==> DistinctKeys(Evicted(entries, maxEntries))
    decreases |entries|
  {
    if |entries| >= maxEntries {
      EvictedMembers(entries[1..], maxEntries);
    }
  }

  lemma RecordedKeepsBound(live: seq<Entry>, entry: Entry, maxEntries: nat)
    requires maxEntries >= 1 && DistinctKeys(live)
    ensures |Recorded(live, entry, maxEntries)| <= maxEntries && DistinctKeys(Recorded(live, entry, maxEntries))
    ensures forall e :: e in Recorded(live, entry, maxEntries) ==> e == entry || (e in live && e.key != entry.key)
  {
    WithoutMembers(live, entry.key);
    var kept := Evicted(Without(live, entry.key), maxEntries);
    EvictedMembers(Without(live, entry.key), maxEntries);
    forall i | 0 <= i < |kept| ensures kept[i].key != entry.key {
      assert kept[i] in kept;
    }
  }

  lemma LiveKeepsBound(live: seq<Entry>, call: Call, entry: Entry, maxEntries: nat)
    requires call.now >= 0 && maxEntries >= 1 && |live| <= maxEntries && DistinctKeys(live)
    ensures var after := NotifiedLive(live, call, entry, maxEntries).1;
      |after| <= maxEntries && DistinctKeys(after)
  {
    RecordedKeepsBound(live, entry, maxEntries);
  }

  lemma NotifiedKeepsBound(entries: seq<Entry>, call: Call, defaultWindow: int, maxEntries: nat)
    requires maxEntries >= 1 && |entries| <= maxEntries && DistinctKeys(entries)
    ensures var after := Notified(entries, call, defaultWindow, maxEntries).1;
      |after| <= maxEntries && DistinctKeys(after)
  {
    if Refusal(call.alert, call.now, defaultWindow).None? {
      UnexpiredMembers(entries, call.now);
      LiveKeepsBound(Unexpired(entries, call.now), call,
        Entry(call.alert.key, Fingerprint(call.alert), call.now + WindowOf(call.alert, defaultWindow)), maxEntries);
    }
  }

  // ---------------------------------------------------------------- whole histories

  type Log = map<string, Entry>

  function EntryOf(call: Call, defaultWindow: int): Entry
    requires Refusal(call.alert, call.now, defaultWindow).None?
  {
    Entry(call.alert.key, Fingerprint(call.alert), call.now + WindowOf(call.alert, defaultWindow))
  }

  predicate WasDelivered(r: Result<AlertResult, NotifyError>) {
    r.Ok? && r.value.outcome != Suppressed
  }

  /** The results so far, the cache, and the last delivery the cache made under each key. */
  datatype History = History(results: seq<Result<AlertResult, NotifyError>>, entries: seq<Entry>, log: Log)

  function After(calls: seq<Call>, defaultWindow: int, maxEntries: nat): (h: History)
    ensures |h.results| == |calls|
  {
    if calls == [] then History([], [], map[])
    else
      var before, call := After(calls[..|calls| - 1], defaultWindow, maxEntries), calls[|calls| - 1];
      var notified := Notified(before.entries, call, defaultWindow, maxEntries);
      History(before.results + [notified.0], notified.1,
              if WasDelivered(notified.0) then before.log[call.alert.key := EntryOf(call, defaultWindow)]
                else before.log)
  }

  /** The entries are distinct, within bounds, and each is the last delivery under its key. */
  ghost predicate Coherent(h: History, maxEntries: nat) {
    && |h.entries| <= maxEntries && DistinctKeys(h.entries)
    && (forall e :: e in h.entries ==> e.key in h.log && h.log[e.key] == e)
    && forall key :: key in h.log ==> h.log[key].key == key
  }

  /** What one call does to the cache and the log together. */
  lemma CallEffect(entries: seq<Entry>, call: Call, defaultWindow: int, maxEntries: nat)
    ensures var notified := Notified(entries, call, defaultWindow, maxEntries);
      if WasDelivered(notified.0) then
        && Refusal(call.alert, call.now, defaultWindow).None?
        && notified.1 == Recorded(Unexpired(entries, call.now), EntryOf(call, defaultWindow), maxEntries)
      else notified.1 == entries
           || (call.now >= 0 && notified.1 == Unexpired(entries, call.now))
  {
  }

  lemma {:induction false} HistoriesAreSound(calls: seq<Call>, defaultWindow: int, maxEntries: nat)
    requires maxEntries >= 1
    ensures Coherent(After(calls, defaultWindow, maxEntries), maxEntries)
  {
    if calls != [] {
      var before, call := After(calls[..|calls| - 1], defaultWindow, maxEntries), calls[|calls| - 1];
      HistoriesAreSound(calls[..|calls| - 1], defaultWindow, maxEntries);
      NotifiedKeepsBound(before.entries, call, defaultWindow, maxEntries);
      CallEffect(before.entries, call, defaultWindow, maxEntries);
      if call.now >= 0 {
        UnexpiredMembers(before.entries, call.now);
      }
      if WasDelivered(Notified(before.entries, call, defaultWindow, maxEntries).0) {
        RecordedKeepsBound(Unexpired(before.entries, call.now), EntryOf(call, defaultWindow), maxEntries);
      }
    }
  }

  /** Call j delivered, and no later call did so under its key. */
  ghost predicate LastDelivery(calls: seq<Call>, h: History, j: nat, key: string, entry: Entry, defaultWindow: int)
    requires |h.results| == |calls|
  {
    && j < |calls| && calls[j].alert.key == key && WasDelivered(h.results[j])
    && Refusal(calls[j].alert, calls[j].now, defaultWindow).None? && entry == EntryOf(calls[j], defaultWindow)
    && forall k :: j < k < |calls| && calls[k].alert.key == key ==> !WasDelivered(h.results[k])
  }

  lemma {:induction false} LogHoldsLastDelivery(calls: seq<Call>, defaultWindow: int, maxEntries: nat, key: string)
    returns (j: nat)
    requires key in After(calls, defaultWindow, maxEntries).log
    ensures LastDelivery(calls, After(calls, defaultWindow, maxEntries), j, key,
                         After(calls, defaultWindow, maxEntries).log[key], defaultWindow)
  {
    var init, call := calls[..|calls| - 1], calls[|calls| - 1];
    var before := After(init, defaultWindow, maxEntries);
    if WasDelivered(Notified(before.entries, call, defaultWindow, maxEntries).0) && call.alert.key == key {
      j := |calls| - 1;
    } else {
      j := LogHoldsLastDelivery(init, defaultWindow, maxEntries, key);
      var results := After(calls, defaultWindow, maxEntries).results;
      assert forall k :: 0 <= k < |init| ==> results[k] == before.results[k] && calls[k] == init[k];
    }
  }

  predicate Logged(log: Log, key: string, fingerprint: string, now: nat) {
    key in log && log[key].fingerprint == fingerprint && log[key].expiresAt > now
  }

  /** What the cache remembers, the log has. */
  lemma RememberedIsLogged(h: History, key: string, fingerprint: string, now: nat, maxEntries: nat)
    requires Coherent(h, maxEntries) && Remembers(Unexpired(h.entries, now), key, fingerprint, now)
    ensures Logged(h.log, key, fingerprint, now)
  {
    UnexpiredMembers(h.entries, now);
  }

  lemma SuppressedMeansRemembered(entries: seq<Entry>, call: Call, defaultWindow: int, maxEntries: nat)
    requires var r := Notified(entries, call, defaultWindow, maxEntries).0; r.Ok? && r.value.outcome == Suppressed
    ensures call.now >= 0
    ensures Remembers(Unexpired(entries, call.now), call.alert.key, Fingerprint(call.alert), call.now)
  {
  }

  /**
   Whatever the clock and the capacity, a suppressed alert repeats the last
   delivery under its key, and that delivery's window is still open.
   */
  lemma SuppressionIsJustified(calls: seq<Call>, call: Call, defaultWindow: int, maxEntries: nat) returns (j: nat)
    requires maxEntries >= 1
    requires var r := Notified(After(calls, defaultWindow, maxEntries).entries, call, defaultWindow, maxEntries).0;
      r.Ok? && r.value.outcome == Suppressed
    ensures j < |calls| && calls[j].alert.key == call.alert.key
    ensures WasDelivered(After(calls, defaultWindow, maxEntries).results[j])
    ensures Fingerprint(calls[j].alert) == Fingerprint(call.alert)
    ensures call.now < calls[j].now + WindowOf(calls[j].alert, defaultWindow)
    ensures forall k :: j < k < |calls| && calls[k].alert.key == call.alert.key ==>
              !WasDelivered(After(calls, defaultWindow, maxEntries).results[k])
  {
    var h := After(calls, defaultWindow, maxEntries);
    HistoriesAreSound(calls, defaultWindow, maxEntries);
    SuppressedMeansRemembered(h.entries, call, defaultWindow, maxEntries);
    RememberedIsLogged(h, call.alert.key, Fingerprint(call.alert), call.now, maxEntries);
    j := LogHoldsLastDelivery(calls, defaultWindow, maxEntries, call.alert.key);
  }

  // ---------------------------------------------------------------- agreement with an unbounded log

  /** The same notification against a log that never forgets. */
  function NotifiedByLog(log: Log, call: Call, defaultWindow: int): (Result<AlertResult, NotifyError>, Log) {
    var alert, refusal := call.alert, Refusal(call.alert, call.now, defaultWindow);
    if refusal.Some? then (Err(refusal.value), log)
    else if Logged(log, alert.key, Fingerprint(alert), call.now) then (Ok(Duplicate(alert)), log)
    else if call.delivery.None? then (Err(DeliveryFailed), log)
    else (Ok(Delivered(alert, call.delivery.value)), log[alert.key := EntryOf(call, defaultWindow)])
  }

  function Reference(calls: seq<Call>, defaultWindow: int): (seq<Result<AlertResult, NotifyError>>, Log) {
    if calls == [] then ([], map[])
    else
      var before := Reference(calls[..|calls| - 1], defaultWindow);
      var notified := NotifiedByLog(before.1, calls[|calls| - 1], defaultWindow);
      (before.0 + [notified.0], notified.1)
  }

  ghost function LiveKeys(log: Log, now: int): set<string> {
    set key | key in log && log[key].expiresAt > now
  }

  /** The clock never goes back, and the live keys with the new one always fit the cache. */
  ghost predicate Roomy(calls: seq<Call>, defaultWindow: int, maxEntries: nat) {
    calls == [] || (
      var init, call := calls[..|calls| - 1], calls[|calls| - 1];
      && Roomy(init, defaultWindow, maxEntries)
      && (init == [] || init[|init| - 1].now <= call.now)
      && |LiveKeys(Reference(init, defaultWindow).1, call.now) + {call.alert.key}| <= maxEntries)
  }

  /** No live delivery of the log is missing from the cache. */
  ghost predicate Complete(entries: seq<Entry>, log: Log, now: int) {
    forall key :: key in log && log[key].expiresAt > now ==> log[key] in entries
  }

  ghost function KeySet(entries: seq<Entry>): set<string> {
    set e | e in entries :: e.key
  }

  lemma {:induction false} KeyCount(entries: seq<Entry>)
    requires DistinctKeys(entries)
    ensures |KeySet(entries)| == |entries|
  {
    if entries != [] {
      var init, last := entries[..|entries| - 1], entries[|entries| - 1];
      assert entries == init + [last];
      KeyCount(init);
      assert KeySet(entries) == KeySet(init) + {last.key};
    }
  }

  lemma SmallerSet<T>(a: set<T>, b: set<T>)
    requires a <= b
    ensures |a| <= |b|
  {
    assert b == a + (b - a);
  }

  /** With room for the live keys, recording a delivery evicts nothing. */
  lemma NothingEvicted(entries: seq<Entry>, log: Log, now: nat, key: string, maxEntries: nat)
    requires DistinctKeys(entries) && maxEntries >= 1
    requires forall e :: e in entries ==> e.key in log && log[e.key] == e
    requires |LiveKeys(log, now) + {key}| <= maxEntries
    ensures var kept := Without(Unexpired(entries, now), key); Evicted(kept, maxEntries) == kept
  {
    var kept := Without(Unexpired(entries, now), key);
    UnexpiredMembers(entries, now);
    WithoutMembers(Unexpired(entries, now), key);
    KeyCount(kept);
    SmallerSet(KeySet(kept) + {key}, LiveKeys(log, now) + {key});
    assert |KeySet(kept) + {key}| == |KeySet(kept)| + 1;
    EvictedMembers(kept, maxEntries);
  }

  lemma SameAnswer(h: History, call: Call, defaultWindow: int, maxEntries: nat)
    requires Coherent(h, maxEntries) && Complete(h.entries, h.log, call.now)
    ensures Notified(h.entries, call, defaultWindow, maxEntries).0 == NotifiedByLog(h.log, call, defaultWindow).0
  {
    if Refusal(call.alert, call.now, defaultWindow).None? {
      SameLookup(h, call.alert.key, Fingerprint(call.alert), call.now, maxEntries);
    }
  }

  lemma SameLookup(h: History, key: string, fingerprint: string, now: nat, maxEntries: nat)
    requires Coherent(h, maxEntries) && Complete(h.entries, h.log, now)
    ensures Remembers(Unexpired(h.entries, now), key, fingerprint, now) <==> Logged(h.log, key, fingerprint, now)
  {
    UnexpiredMembers(h.entries, now);
    if Logged(h.log, key, fingerprint, now) {
      assert h.log[key] in Unexpired(h.entries, now);
    } else if Remembers(Unexpired(h.entries, now), key, fingerprint, now) {
      RememberedIsLogged(h, key, fingerprint, now, maxEntries);
    }
  }

  lemma RecordedIsComplete(h: History, entry: Entry, now: nat, maxEntries: nat)
    requires Coherent(h, maxEntries) && Complete(h.entries, h.log, now) && maxEntries >= 1
    requires |LiveKeys(h.log, now) + {entry.key}| <= maxEntries
    ensures Complete(Recorded(Unexpired(h.entries, now), entry, maxEntries), h.log[entry.key := entry], now)
  {
    NothingEvicted(h.entries, h.log, now, entry.key, maxEntries);
    UnexpiredMembers(h.entries, now);
    WithoutMembers(Unexpired(h.entries, now), entry.key);
  }

  lemma CompleteKept(h: History, call: Call, defaultWindow: int, maxEntries: nat)
    requires Coherent(h, maxEntries) && Complete(h.entries, h.log, call.now) && maxEntries >= 1
    requires |LiveKeys(h.log, call.now) + {call.alert.key}| <= maxEntries
    ensures var notified := Notified(h.entries, call, defaultWindow, maxEntries);
      Complete(notified.1, NotifiedByLog(h.log, call, defaultWindow).1, call.now)
  {
    CallEffect(h.entries, call, defaultWindow, maxEntries);
    SameAnswer(h, call, defaultWindow, maxEntries);
    LogEffect(h.log, call, defaultWindow);
    if WasDelivered(Notified(h.entries, call, defaultWindow, maxEntries).0) {
      RecordedIsComplete(h, EntryOf(call, defaultWindow), call.now, maxEntries);
    } else if call.now >= 0 {
      UnexpiredMembers(h.entries, call.now);
    }
  }

  lemma LogEffect(log: Log, call: Call, defaultWindow: int)
    ensures var notified := NotifiedByLog(log, call, defaultWindow);
      if WasDelivered(notified.0) then
        && Refusal(call.alert, call.now, defaultWindow).None?
        && notified.1 == log[call.alert.key := EntryOf(call, defaultWindow)]
      else notified.1 == log
  {
  }

  /**
   With a clock that never goes back and room for all live keys, the cache
   answers every call exactly as an unbounded log of last deliveries would.
   */
  lemma {:induction false} CacheRefinesLog(calls: seq<Call>, defaultWindow: int, maxEntries: nat)
    requires maxEntries >= 1 && Roomy(calls, defaultWindow, maxEntries)
    ensures var h, reference := After(calls, defaultWindow, maxEntries), Reference(calls, defaultWindow);
      && h.results == reference.0 && h.log == reference.1
      && (calls == [] || Complete(h.entries, h.log, calls[|calls| - 1].now))
  {
    if calls != [] {
      var init, call := calls[..|calls| - 1], calls[|calls| - 1];
      CacheRefinesLog(init, defaultWindow, maxEntries);
      HistoriesAreSound(init, defaultWindow, maxEntries);
      var h := After(init, defaultWindow, maxEntries);
      SameAnswer(h, call, defaultWindow, maxEntries);
      LogEffect(h.log, call, defaultWindow);
      CompleteKept(h, call, defaultWindow, maxEntries);
    }
  }

  lemma {:induction false} AllUnexpired(entries: seq<Entry>, now: nat)
    requires forall e :: e in entries ==> e.expiresAt > now
    ensures Unexpired(entries, now) == entries
  {
    if entries != [] {
      var init, last := entries[..|entries| - 1], entries[|entries| - 1];
      assert entries == init + [last];
      AllUnexpired(init, now);
    }
  }

  lemma {:induction false} NoneUnder(entries: seq<Entry>, key: string)
    requires forall e :: e in entries ==> e.key != key
    ensures Without(entries, key) == entries
  {
    if entries != [] {
      var init, last := entries[..|entries| - 1], entries[|entries| - 1];
      assert entries == init + [last];
      NoneUnder(init, key);
    }
  }

  lemma OldestEvicted(entries: seq<Entry>, maxEntries: nat)
    requires |entries| == maxEntries >= 1
    ensures Evicted(entries, maxEntries) == entries[1..]
  {
    assert Evicted(entries[1..], maxEntries) == entries[1..];
  }

  /** A delivery under a new key takes the place of the oldest of a full set of unexpired entries. */
  lemma FullCacheShifts(entries: seq<Entry>, call: Call, defaultWindow: int, maxEntries: nat)
    requires |entries| == maxEntries >= 1 && Refusal(call.alert, call.now, defaultWindow).None? && call.delivery.Some?
    requires forall e :: e in entries ==> e.expiresAt > call.now && e.key != call.alert.key
    ensures Notified(entries, call, defaultWindow, maxEntries)
            == (Ok(Delivered(call.alert, call.delivery.value)), entries[1..] + [EntryOf(call, defaultWindow)])
  {
    AllUnexpired(entries, call.now);
    NoneUnder(entries, call.alert.key);
    OldestEvicted(entries, maxEntries);
  }

  lemma NotRemembered(entries: seq<Entry>, call: Call, defaultWindow: int, maxEntries: nat)
    requires Refusal(call.alert, call.now, defaultWindow).None? && call.delivery.Some?
    requires forall e :: e in entries ==> e.key != call.alert.key
    ensures Notified(entries, call, defaultWindow, maxEntries).0 == Ok(Delivered(call.alert, call.delivery.value))
  {
    UnexpiredMembers(entries, call.now);
  }

  /**
   Without that room the two differ, whatever the capacity: a full cache that
   delivers under a new key forgets its oldest entry, so the alert of that entry
   is delivered again although its window is still open.
   */
  lemma EvictionForgets(h: History, other: Call, again: Call, defaultWindow: int, maxEntries: nat)
    requires Coherent(h, maxEntries) && |h.entries| == maxEntries >= 1
    requires Refusal(other.alert, other.now, defaultWindow).None? && other.delivery.Some?
    requires forall e :: e in h.entries ==> e.expiresAt > other.now && e.key != other.alert.key
    requires Refusal(again.alert, again.now, defaultWindow).None? && again.delivery.Some?
    requires var oldest := h.entries[0];
      again.alert.key == oldest.key && Fingerprint(again.alert) == oldest.fingerprint && again.now < oldest.expiresAt
    ensures var cached := Notified(h.entries, other, defaultWindow, maxEntries).1;
      Notified(cached, again, defaultWindow, maxEntries).0 == Ok(Delivered(again.alert, again.delivery.value))
    ensures var logged := NotifiedByLog(h.log, other, defaultWindow).1;
      NotifiedByLog(logged, again, defaultWindow).0 == Ok(Duplicate(again.alert))
  {
    FullCacheShifts(h.entries, other, defaultWindow, maxEntries);
    var cached := h.entries[1..] + [EntryOf(other, defaultWindow)];
    assert h.entries[0] in h.entries;
    NotRemembered(cached, again, defaultWindow, maxEntries);
    LogEffect(h.log, other, defaultWindow);
  }

  // ---------------------------------------------------------------- fingerprints

  lemma FirstNul(a: string, b: string, x: string, y: string)
    requires NUL !in a && a + ([NUL] + x) == b + ([NUL] + y)
    ensures |a| <= |b|
  {
    assert (a + ([NUL] + x))[|b|] == (b + ([NUL] + y))[|b|] == NUL;
  }

  lemma SplitAtNul(a: string, b: string, x: string, y: string)
    requires NUL !in a && NUL !in b
    ensures a + ([NUL] + x) == b + ([NUL] + y) <==> a == b && x == y
  {
    var s, t := a + ([NUL] + x), b + ([NUL] + y);
    if s == t {
      FirstNul(a, b, x, y);
      FirstNul(b, a, y, x);
      assert s[..|a|] == a && t[..|b|] == b;
      assert s[|a| + 1..] == x && t[|b| + 1..] == y;
    }
  }

  /** Two valid alerts digest the same text exactly when severity, title, body and position all agree. */
  lemma FingerprintsAgreeIff(a: Alert, b: Alert)
    requires IsValidAlert(a) && IsValidAlert(b)
    ensures Fingerprint(a) == Fingerprint(b) <==>
            && a.severity == b.severity && a.title == b.title
            && BodyText(a) == BodyText(b) && PositionOf(a) == PositionOf(b)
  {
    var pa, pb := PositionText(PositionOf(a)), PositionText(PositionOf(b));
    var ba, bb := BodyText(a) + ([NUL] + pa), BodyText(b) + ([NUL] + pb);
    SplitAtNul(BodyText(a), BodyText(b), pa, pb);
    SplitAtNul(a.title, b.title, ba, bb);
    SplitAtNul(SeverityText(a.severity), SeverityText(b.severity), a.title + ([NUL] + ba), b.title + ([NUL] + bb));
  }
}
