/** The carrier address cache of `node/src/carriers.rs`: name lookups of any number of concurrent callers
    racing the kill switch's mode changes. A lookup is a small program whose steps interleave freely;
    a step under the write lock is one step here. */
module PinCache {
  import opened Common

  type Host = nat
  type Ip = nat
  type CallId = nat

  const MAX_ADDRESSES: nat := 64

  datatype Mode = Bootstrap | Locked | ExitReady

  datatype Result = Ok(ips: set<Ip>) | Blocked | Failed

  /** Where a lookup stands: before the first mode check; waiting for DNS; before the second mode check;
      about to read the pins; about to publish under the write lock; with its result. */
  datatype Pc =
    | Asked
    | Resolving
    | Answered(ips: set<Ip>)
    | Reading
    | Recording(ips: set<Ip>)
    | Done(result: Result)

  datatype Call = Call(host: Host, pc: Pc)

  type Pins = map<Host, set<Ip>>

  datatype Cache = Cache(mode: Mode, pins: Pins, calls: map<CallId, Call>)

  function Lookup(pins: Pins, host: Host): Result {
    if host in pins then Ok(pins[host]) else Blocked
  }

  datatype Publication = Publication(pins: Pins, result: Result)

  /** `saved` says whether the pin file was written; if not, the pin is put back as it was. */
  function Publish(mode: Mode, pins: Pins, host: Host, ips: set<Ip>, saved: bool): Publication {
    if mode.Locked? then Publication(pins, Lookup(pins, host))
    else if saved then Publication(pins[host := ips], Ok(ips))
    else Publication(pins, Failed)
  }

  // ---- The shared object --------------------------------------------------------------------------

  class Shared {
    var mode: Mode
    var pins: Pins
    var missing: set<Host>

    constructor (retained: bool, saved: Pins)
      ensures mode == (if retained then Locked else Bootstrap) && pins == (if retained then saved else map[]) && missing == {}
    {
      mode := if retained then Locked else Bootstrap;
      pins := if retained then saved else map[];
      missing := {};
    }

    method SetExit(ready: bool)
      modifies this`mode
      ensures mode == if ready then ExitReady else Locked
    {
      mode := if ready then ExitReady else Locked;
    }

    method Cached(host: Host) returns (r: Result)
      modifies this`missing
      ensures r == Lookup(pins, host)
      ensures missing == old(missing) + if r.Blocked? then {host} else {}
    {
      if host in pins { return Ok(pins[host]); }
      missing := missing + {host};
      r := Blocked;
    }

    /** The file system may fail before the pin is inserted or after; either way the pins are as
        they were. */
    method Record(host: Host, ips: set<Ip>) returns (r: Result, saved: bool)
      modifies this`pins, this`missing
      ensures Publication(pins, r) == Publish(mode, old(pins), host, ips, saved)
      ensures missing == if r.Blocked? then old(missing) + {host} else if saved then old(missing) - {host} else old(missing)
      ensures mode.Locked? ==> !saved
    {
      saved := false;
      if mode.Locked? {
        if host in pins { return Ok(pins[host]), false; }
        missing := missing + {host};
        return Blocked, false;
      }
      var ready: bool := *;
      if !ready { return Failed, false; }
      var known := host in pins;
      var was := if known then pins[host] else {};
      pins := pins[host := ips];
      saved := *;
      if !saved {
        pins := if known then pins[host := was] else pins - {host};
        assert pins == old(pins);
        return Failed, false;
      }
      missing := missing - {host};
      r := Ok(ips);
    }
  }

  // ---- Interleavings ------------------------------------------------------------------------------

  /** A caller arrives; a call takes its next step, with what DNS and the file system would answer if
      it asks them now; the exit comes or goes; a caller takes its result. */
  datatype Event =
    | Begin(c: CallId, host: Host)
    | Go(c: CallId, answer: Option<seq<Ip>>, saved: bool)
    | SetExit(ready: bool)
    | Return(c: CallId)

  function Addresses(raw: seq<Ip>): set<Ip> {
    set x | x in raw
  }

  function OnAnswer(answer: Option<seq<Ip>>): Pc {
    if answer.None? || Addresses(answer.value) == {} || |Addresses(answer.value)| > MAX_ADDRESSES then Done(Failed)
    else Answered(Addresses(answer.value))
  }

  function NextPc(w: Cache, call: Call, answer: Option<seq<Ip>>, saved: bool): Pc {
    match call.pc
    case Asked => if w.mode.Locked? then Reading else Resolving
    case Resolving => OnAnswer(answer)
    case Answered(ips) => if w.mode.Locked? then Reading else Recording(ips)
    case Reading => Done(Lookup(w.pins, call.host))
    case Recording(ips) => Done(Publish(w.mode, w.pins, call.host, ips, saved).result)
    case Done(_) => call.pc
  }

  function NextPins(w: Cache, call: Call, saved: bool): Pins {
    if call.pc.Recording? then Publish(w.mode, w.pins, call.host, call.pc.ips, saved).pins else w.pins
  }

  function Step(w: Cache, e: Event): Cache {
    match e
    case Begin(c, host) =>
      if c in w.calls then w else w.(calls := w.calls[c := Call(host, Asked)])
    case Go(c, answer, saved) =>
      if c !in w.calls then w
      else
        var call := w.calls[c];
        w.(pins := NextPins(w, call, saved), calls := w.calls[c := Call(call.host, NextPc(w, call, answer, saved))])
    case SetExit(ready) => w.(mode := if ready then ExitReady else Locked)
    case Return(c) =>
      if c in w.calls && w.calls[c].pc.Done? then w.(calls := w.calls - {c}) else w
  }

  function After(start: Cache, run: seq<Event>, n: nat): Cache
    requires n <= |run|
  {
    if n == 0 then start else Step(After(start, run, n - 1), run[n - 1])
  }

  /** A cache as opened: retained pins are locked; otherwise there are none. */
  predicate Opened(w: Cache) {
    && w.calls == map[]
    && (w.mode.Locked? || (w.mode.Bootstrap? && w.pins == map[]))
    && (forall h | h in w.pins :: 1 <= |w.pins[h]| <= MAX_ADDRESSES)
  }

  // ---- While locked, nothing is published ---------------------------------------------------------

  lemma {:induction false} LockedPinsNeverChange(start: Cache, run: seq<Event>, i: nat, j: nat)
    requires i <= j <= |run| && forall k | i <= k < j :: After(start, run, k).mode.Locked?
    ensures After(start, run, j).pins == After(start, run, i).pins
    decreases j
  {
    if i < j { LockedPinsNeverChange(start, run, i, j - 1); }
  }

  lemma {:induction false} BootstrapNeverReturns(start: Cache, run: seq<Event>, i: nat, j: nat)
    requires i <= j <= |run| && !After(start, run, i).mode.Bootstrap?
    ensures !After(start, run, j).mode.Bootstrap?
    decreases j
  {
    if i < j { BootstrapNeverReturns(start, run, i, j - 1); }
  }

  // ---- Answers are pins -----------------------------------------------------------------------------

  predicate Undecided(w: Cache, c: CallId, host: Host) {
    c in w.calls && w.calls[c].host == host && !w.calls[c].pc.Done?
  }

  predicate HasResult(w: Cache, c: CallId, host: Host, r: Result) {
    c in w.calls && w.calls[c] == Call(host, Done(r))
  }

  /** The outside fails the call at this step: no usable DNS answer, or a pin file not written. */
  predicate Fails(w: Cache, call: Call, e: Event) {
    && e.Go?
    && ((call.pc.Resolving? && !OnAnswer(e.answer).Answered?) || (call.pc.Recording? && !w.mode.Locked? && !e.saved))
  }

  /** The step that decides a result leaves exactly it in the cache, unless the outside failed. */
  lemma DecisionIsPinned(w: Cache, e: Event, c: CallId, host: Host, r: Result)
    requires Undecided(w, c, host) && HasResult(Step(w, e), c, host, r)
    ensures r == if Fails(w, w.calls[c], e) then Failed else Lookup(Step(w, e).pins, host)
  {
  }

  ghost predicate DecidedAt(start: Cache, run: seq<Event>, k: nat, n: nat, c: CallId, host: Host, r: Result)
    requires 0 < k <= n <= |run|
  {
    && Undecided(After(start, run, k - 1), c, host)
    && forall m | k <= m <= n :: HasResult(After(start, run, m), c, host, r)
  }

  lemma ResultPersists(w: Cache, e: Event, c: CallId, host: Host, r: Result)
    requires HasResult(Step(w, e), c, host, r)
    ensures HasResult(w, c, host, r) || Undecided(w, c, host)
  {
  }

  lemma {:induction false} FindDecision(start: Cache, run: seq<Event>, n: nat, c: CallId, host: Host, r: Result) returns (k: nat)
    requires Opened(start) && n <= |run| && HasResult(After(start, run, n), c, host, r)
    ensures 0 < k <= n && DecidedAt(start, run, k, n, c, host, r)
  {
    var before := After(start, run, n - 1);
    ResultPersists(before, run[n - 1], c, host, r);
    if HasResult(before, c, host, r) {
      k := FindDecision(start, run, n - 1, c, host, r);
    } else {
      k := n;
    }
  }

  /** In every run, an Ok answer a call is holding was that host's pin at an instant of the call: the
      step that decided it, before which the call was still undecided and since which it has held
      the answer. */
  lemma AnswersWerePinned(start: Cache, run: seq<Event>, n: nat, c: CallId, host: Host, ips: set<Ip>)
    requires Opened(start) && n <= |run| && HasResult(After(start, run, n), c, host, Ok(ips))
    ensures exists k | 0 < k <= n ::
              DecidedAt(start, run, k, n, c, host, Ok(ips)) && Lookup(After(start, run, k).pins, host) == Ok(ips)
  {
    var k := FindDecision(start, run, n, c, host, Ok(ips));
    assert HasResult(After(start, run, k), c, host, Ok(ips));
    DecisionIsPinned(After(start, run, k - 1), run[k - 1], c, host, Ok(ips));
  }

  /** The addresses event m publishes for host, if it publishes any. */
  function Publishes(w: Cache, e: Event, host: Host): Option<set<Ip>> {
    if e.Go? && e.c in w.calls && w.calls[e.c].host == host && w.calls[e.c].pc.Recording? && !w.mode.Locked? && e.saved
    then Some(w.calls[e.c].pc.ips)
    else None
  }

  /** The last publication for host among events k..n. */
  function LastPublished(start: Cache, run: seq<Event>, k: nat, n: nat, host: Host): Option<set<Ip>>
    requires k <= n <= |run|
    decreases n
  {
    if k == n then None
    else
      var last := Publishes(After(start, run, n - 1), run[n - 1], host);
      if last.Some? then last else LastPublished(start, run, k, n - 1, host)
  }

  lemma StepPins(w: Cache, e: Event, host: Host)
    ensures Lookup(Step(w, e).pins, host) ==
            if Publishes(w, e, host).Some? then Ok(Publishes(w, e, host).value) else Lookup(w.pins, host)
  {
  }

  lemma {:induction false} PinIsLastPublished(start: Cache, run: seq<Event>, k: nat, n: nat, host: Host)
    requires k <= n <= |run|
    ensures
      var last := LastPublished(start, run, k, n, host);
      Lookup(After(start, run, n).pins, host) == if last.Some? then Ok(last.value) else Lookup(After(start, run, k).pins, host)
    decreases n
  {
    if k < n {
      PinIsLastPublished(start, run, k, n - 1, host);
      StepPins(After(start, run, n - 1), run[n - 1], host);
    }
  }

  /** In every run, exactly when a result a call holds is what the cache says now: the outside did
      not fail the call, and the last publication for its host since its decision, if there was
      one, put the very same addresses. Event k - 1 is the decision. */
  lemma ResultIsCurrentIff(start: Cache, run: seq<Event>, n: nat, c: CallId, host: Host, r: Result) returns (k: nat)
    requires Opened(start) && n <= |run| && HasResult(After(start, run, n), c, host, r)
    ensures 0 < k <= n && DecidedAt(start, run, k, n, c, host, r)
    ensures
      var w, last := After(start, run, k - 1), LastPublished(start, run, k, n, host);
      r == Lookup(After(start, run, n).pins, host)
      <==> !Fails(w, w.calls[c], run[k - 1]) && (last.Some? ==> r == Ok(last.value))
  {
    k := FindDecision(start, run, n, c, host, r);
    assert HasResult(After(start, run, k), c, host, r);
    DecisionIsPinned(After(start, run, k - 1), run[k - 1], c, host, r);
    PinIsLastPublished(start, run, k, n, host);
  }

  /** How far a call that began under lock can be. */
  predicate LockedPc(w: Cache, call: Call) {
    call.pc in {Asked, Reading, Done(Lookup(w.pins, call.host))}
  }

  /** A call made under lock: if the mode is Locked from before the call until now, the result is the
      pinned set, or Blocked if there is none; it is never a failure, and DNS is never asked. */
  lemma {:induction false} LockedCallReturnsPin(start: Cache, run: seq<Event>, b: nat, n: nat, c: CallId)
    requires b <= n <= |run| && c !in After(start, run, b).calls
    requires forall m | b <= m <= n :: After(start, run, m).mode.Locked?
    ensures
      var w := After(start, run, n);
      c in w.calls ==>
        LockedPc(w, w.calls[c]) && (w.calls[c].pc.Done? ==> w.calls[c].pc.result == Lookup(w.pins, w.calls[c].host))
    decreases n
  {
    if b < n {
      LockedCallReturnsPin(start, run, b, n - 1, c);
      assert After(start, run, n - 1).mode.Locked?;
    }
  }

  function StaleRun(): seq<Event> {
    [Begin(0, 7), Begin(1, 7),
     Go(0, None, true), Go(1, None, true),
     Go(0, Some([1]), true), Go(1, Some([2]), true),
     Go(0, None, true), Go(1, None, true),
     Go(0, None, true), Go(1, None, true),
     SetExit(false)]
  }

  lemma BothAnswered()
    ensures After(Cache(Bootstrap, map[], map[]), StaleRun(), 6)
            == Cache(Bootstrap, map[], map[0 := Call(7, Answered({1})), 1 := Call(7, Answered({2}))])
  {
    var start, run := Cache(Bootstrap, map[], map[]), StaleRun();
    assert After(start, run, 0) == start;
    assert After(start, run, 1).calls == map[0 := Call(7, Asked)];
    assert After(start, run, 2).calls == map[0 := Call(7, Asked), 1 := Call(7, Asked)];
    assert After(start, run, 3).calls == map[0 := Call(7, Resolving), 1 := Call(7, Asked)];
    assert After(start, run, 4).calls == map[0 := Call(7, Resolving), 1 := Call(7, Resolving)];
    assert Addresses([1]) == {1} && Addresses([2]) == {2};
    assert After(start, run, 5).calls == map[0 := Call(7, Answered({1})), 1 := Call(7, Resolving)];
    assert After(start, run, 6).calls == map[0 := Call(7, Answered({1})), 1 := Call(7, Answered({2}))];
  }

  /** Such a publication does come in between: two callers record different answers, the exit is
      lost, and the first returns its own, out of date. */
  lemma LateReturnMayBeStale()
    ensures
      var start := Cache(Bootstrap, map[], map[]);
      var w := After(start, StaleRun(), 11);
      Opened(start) && w.mode.Locked? && HasResult(w, 0, 7, Ok({1})) && Lookup(w.pins, 7) == Ok({2})
  {
    var start, run := Cache(Bootstrap, map[], map[]), StaleRun();
    BothAnswered();
    assert After(start, run, 7).calls == map[0 := Call(7, Recording({1})), 1 := Call(7, Answered({2}))];
    assert After(start, run, 8).calls == map[0 := Call(7, Recording({1})), 1 := Call(7, Recording({2}))];
    assert After(start, run, 9).pins == map[7 := {1}];
    assert After(start, run, 10).pins == map[7 := {2}];
  }

  // ---- Where pins come from -------------------------------------------------------------------------

  /** Event k is a DNS answer to a call for host, and ips are its addresses. */
  predicate Gave(start: Cache, run: seq<Event>, k: nat, host: Host, ips: set<Ip>)
    requires k < |run|
  {
    var w := After(start, run, k);
    && run[k].Go? && run[k].c in w.calls && w.calls[run[k].c] == Call(host, Resolving)
    && OnAnswer(run[k].answer) == Answered(ips)
  }

  ghost predicate Given(start: Cache, run: seq<Event>, n: nat, host: Host, ips: set<Ip>)
    requires n <= |run|
  {
    exists k | 0 <= k < n :: Gave(start, run, k, host, ips)
  }

  predicate Carries(call: Call, ips: set<Ip>) {
    call.pc == Answered(ips) || call.pc == Recording(ips)
  }

  ghost predicate CallsSourced(start: Cache, run: seq<Event>, n: nat)
    requires n <= |run|
  {
    var w := After(start, run, n);
    forall c, ips | c in w.calls && Carries(w.calls[c], ips) :: Given(start, run, n, w.calls[c].host, ips)
  }

  ghost predicate PinsSourced(start: Cache, run: seq<Event>, n: nat)
    requires n <= |run|
  {
    var w := After(start, run, n);
    forall h | h in w.pins :: (h in start.pins && w.pins[h] == start.pins[h]) || Given(start, run, n, h, w.pins[h])
  }

  lemma GivenGrows(start: Cache, run: seq<Event>, n: nat, host: Host, ips: set<Ip>)
    requires n < |run| && Given(start, run, n, host, ips)
    ensures Given(start, run, n + 1, host, ips)
  {
  }

  lemma StepSourcesCalls(start: Cache, run: seq<Event>, n: nat)
    requires n < |run| && CallsSourced(start, run, n)
    ensures CallsSourced(start, run, n + 1)
  {
    var w, w' := After(start, run, n), After(start, run, n + 1);
    forall c, ips | c in w'.calls && Carries(w'.calls[c], ips)
      ensures Given(start, run, n + 1, w'.calls[c].host, ips)
    {
      assert c in w.calls;
      if Carries(w.calls[c], ips) {
        GivenGrows(start, run, n, w.calls[c].host, ips);
      } else {
        assert Gave(start, run, n, w.calls[c].host, ips);
      }
    }
  }

  lemma StepSourcesPins(start: Cache, run: seq<Event>, n: nat)
    requires n < |run| && CallsSourced(start, run, n) && PinsSourced(start, run, n)
    ensures PinsSourced(start, run, n + 1)
  {
    var w, w' := After(start, run, n), After(start, run, n + 1);
    forall h | h in w'.pins
      ensures (h in start.pins && w'.pins[h] == start.pins[h]) || Given(start, run, n + 1, h, w'.pins[h])
    {
      if h in w.pins && w'.pins[h] == w.pins[h] {
        if Given(start, run, n, h, w.pins[h]) { GivenGrows(start, run, n, h, w.pins[h]); }
      } else {
        var call := w.calls[run[n].c];
        assert Carries(call, w'.pins[h]);
        GivenGrows(start, run, n, h, w'.pins[h]);
      }
    }
  }

  /** In every run each pin is a retained one or a DNS answer to a lookup of that very host, and has
      1 to 64 addresses. */
  lemma {:induction false} PinsComeFromDns(start: Cache, run: seq<Event>, n: nat)
    requires Opened(start) && n <= |run|
    ensures CallsSourced(start, run, n) && PinsSourced(start, run, n)
    ensures forall h | h in After(start, run, n).pins :: 1 <= |After(start, run, n).pins[h]| <= MAX_ADDRESSES
  {
    if n > 0 {
      PinsComeFromDns(start, run, n - 1);
      StepSourcesCalls(start, run, n - 1);
      StepSourcesPins(start, run, n - 1);
    }
  }
}
