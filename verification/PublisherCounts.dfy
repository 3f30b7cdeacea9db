/** Admission of publishers: the number of publishers the frontend keeps, raised by each admitted RPC and lowered by
    every RPC that ends, admitted or not. */
module PublisherCounts {
  import opened Packets

  /** `count` is the shared counter. `checking` constructors have found room and not yet raised it, `entered` ones have
      raised it and not yet read the running flag. `live` RPCs were started and have not ended; `closing` ones were
      finished at once because the flag was down; `turnedAway` ones were refused. `departed` is history: refused RPCs
      that ended while the frontend was running. */
  datatype Desk = Desk(
    maximum: nat,
    running: bool,
    count: int,
    checking: nat,
    entered: nat,
    live: nat,
    closing: nat,
    turnedAway: nat,
    departed: nat)

  datatype Event =
    | Look          // a constructor compares the counter with the maximum
    | BadToken      // a constructor past the check refuses the access token
    | Raise         // a constructor past the check raises the counter
    | Start         // ... and reads the running flag
    | Leave         // a started RPC ends
    | LeaveClosing  // an RPC finished at once ends
    | LeaveRefused  // a refused RPC ends
    | StopFlag      // the frontend stops: first the flag
    | Zero          // ... and last the counter, which is set to zero

  ghost predicate Enabled(s: Desk, e: Event) {
    match e
    case Look => true
    case BadToken => s.checking > 0
    case Raise => s.checking > 0
    case Start => s.entered > 0
    case Leave => s.live > 0
    case LeaveClosing => s.closing > 0
    case LeaveRefused => s.turnedAway > 0
    case StopFlag => true
    case Zero => !s.running
  }

  /** OnDone: the counter is lowered while the frontend runs. */
  function Lowered(s: Desk): int {
    if s.running then s.count - 1 else s.count
  }

  ghost function Effect(s: Desk, e: Event): Desk
    requires Enabled(s, e)
  {
    match e
    case Look =>
      if s.count >= s.maximum then s.(turnedAway := s.turnedAway + 1) else s.(checking := s.checking + 1)
    case BadToken => s.(checking := s.checking - 1, turnedAway := s.turnedAway + 1)
    case Raise => s.(checking := s.checking - 1, count := s.count + 1, entered := s.entered + 1)
    case Start =>
      if s.running then s.(entered := s.entered - 1, live := s.live + 1)
      else s.(entered := s.entered - 1, closing := s.closing + 1)
    case Leave => s.(live := s.live - 1, count := Lowered(s))
    case LeaveClosing => s.(closing := s.closing - 1, count := Lowered(s))
    case LeaveRefused =>
      s.(turnedAway := s.turnedAway - 1, count := Lowered(s), departed := s.departed + if s.running then 1 else 0)
    case StopFlag => s.(running := false)
    case Zero => s.(count := 0)
  }

  function Initial(maximum: nat): Desk {
    Desk(maximum, true, 0, 0, 0, 0, 0, 0, 0)
  }

  ghost function After(maximum: nat, events: seq<Event>): Option<Desk> {
    if events == [] then Some(Initial(maximum))
    else
      match After(maximum, events[..|events| - 1])
      case None => None
      case Some(mid) =>
        if Enabled(mid, events[|events| - 1]) then Some(Effect(mid, events[|events| - 1])) else None
  }

  /** While the frontend runs, the counter is the number of publishers admitted and not gone, less the refused RPCs that
      have ended; so it is right exactly while no refused RPC has ended. */
  lemma {:induction false} CountDrifts(maximum: nat, events: seq<Event>)
    requires After(maximum, events).Some?
    ensures var s := After(maximum, events).value;
            && s.maximum == maximum
            && (s.running ==> s.closing == 0)
            && (s.running ==> s.count == s.live + s.entered - s.departed)
            && (s.running ==> (s.count == s.live + s.entered <==> s.departed == 0))
  {
    if events != [] {
      CountDrifts(maximum, events[..|events| - 1]);
    }
  }

  // ---------------------------------------------------------------- the limit on publishers

  /** At no moment of the run are more than `racing` constructors between looking and raising, and at most `departed`
      refused RPCs end while the frontend runs. */
  ghost predicate Within(maximum: nat, events: seq<Event>, racing: nat, departed: nat) {
    && After(maximum, events).Some?
    && After(maximum, events).value.checking <= racing
    && After(maximum, events).value.departed <= departed
    && (events != [] ==> Within(maximum, events[..|events| - 1], racing, departed))
  }

  /** How far admission can overshoot: by the constructors racing past the check, and by one for each refused RPC that
      ended. */
  lemma {:induction false} LiveBound(maximum: nat, events: seq<Event>, racing: nat, departed: nat)
    requires maximum >= 1 && racing >= 1 && Within(maximum, events, racing, departed)
    ensures var s := After(maximum, events).value;
            && s.live <= maximum - 1 + racing + s.departed
            && (s.running ==> s.live + s.entered + s.checking <= maximum - 1 + racing + s.departed)
  {
    if events != [] {
      var init := events[..|events| - 1];
      LiveBound(maximum, init, racing, departed);
      CountDrifts(maximum, init);
    }
  }

  /** A run so far, with its final state. */
  ghost predicate Sofar(maximum: nat, events: seq<Event>, s: Desk, racing: nat, departed: nat) {
    After(maximum, events) == Some(s) && Within(maximum, events, racing, departed)
  }

  lemma Then(maximum: nat, events: seq<Event>, s: Desk, e: Event, racing: nat, departed: nat)
    requires Sofar(maximum, events, s, racing, departed) && Enabled(s, e)
    requires Effect(s, e).checking <= racing && Effect(s, e).departed <= departed
    ensures Sofar(maximum, events + [e], Effect(s, e), racing, departed)
  {
    hide Enabled, Effect;
    assert (events + [e])[..|events|] == events;
  }

  /** `live` publishers, `checking` constructors past the check, and a counter that has drifted by `departed`. */
  function Busy(maximum: nat, checking: nat, live: nat, departed: nat): Desk {
    Desk(maximum, true, live - departed, checking, 0, live, 0, 0, departed)
  }

  lemma LookIn(maximum: nat, events: seq<Event>, racing: nat, departed: nat, c: nat, n: nat, d: nat)
    requires Sofar(maximum, events, Busy(maximum, c, n, d), racing, departed)
    requires n - d < maximum && c < racing
    ensures Sofar(maximum, events + [Look], Busy(maximum, c + 1, n, d), racing, departed)
  {
    hide After, Within;
    WithinNow(maximum, events, Busy(maximum, c, n, d), racing, departed);
    Then(maximum, events, Busy(maximum, c, n, d), Look, racing, departed);
  }

  lemma WithinNow(maximum: nat, events: seq<Event>, s: Desk, racing: nat, departed: nat)
    requires Sofar(maximum, events, s, racing, departed)
    ensures s.checking <= racing && s.departed <= departed
  {
  }

  lemma ComeIn(maximum: nat, events: seq<Event>, racing: nat, departed: nat, c: nat, n: nat, d: nat)
    requires Sofar(maximum, events, Busy(maximum, c + 1, n, d), racing, departed)
    ensures Sofar(maximum, events + [Raise] + [Start], Busy(maximum, c, n + 1, d), racing, departed)
  {
    hide After, Within;
    var s := Busy(maximum, c + 1, n, d);
    WithinNow(maximum, events, s, racing, departed);
    Then(maximum, events, s, Raise, racing, departed);
    Then(maximum, events + [Raise], Effect(s, Raise), Start, racing, departed);
  }

  /** At a full frontend, an RPC is refused and ends. */
  lemma RefuseOne(maximum: nat, events: seq<Event>, racing: nat, departed: nat, n: nat, d: nat)
    requires Sofar(maximum, events, Busy(maximum, 0, n, d), racing, departed)
    requires n - d >= maximum && d < departed
    ensures Sofar(maximum, events + [Look] + [LeaveRefused], Busy(maximum, 0, n, d + 1), racing, departed)
  {
    hide After, Within;
    var s := Busy(maximum, 0, n, d);
    Then(maximum, events, s, Look, racing, departed);
    Then(maximum, events + [Look], Effect(s, Look), LeaveRefused, racing, departed);
  }

  /** One place left, after `d` refusals: all the others are taken, and `d` more. */
  lemma {:induction false} AlmostFull(maximum: nat, racing: nat, departed: nat, n: nat, d: nat)
    returns (events: seq<Event>)
    requires maximum >= 1 && racing >= 1 && d <= departed
    requires (n < maximum && d == 0) || n == maximum - 1 + d
    ensures Sofar(maximum, events, Busy(maximum, 0, n, d), racing, departed)
    decreases d, n
  {
    hide Sofar;
    if n == 0 && d == 0 {
      events := [];
      Opening(maximum, racing, departed);
    } else if d == 0 {
      events := AlmostFull(maximum, racing, departed, n - 1, 0);
      LookIn(maximum, events, racing, departed, 0, n - 1, 0);
      ComeIn(maximum, events + [Look], racing, departed, 0, n - 1, 0);
      events := events + [Look] + [Raise] + [Start];
    } else {
      events := AlmostFull(maximum, racing, departed, n - 1, d - 1);
      LookIn(maximum, events, racing, departed, 0, n - 1, d - 1);
      ComeIn(maximum, events + [Look], racing, departed, 0, n - 1, d - 1);
      RefuseOne(maximum, events + [Look] + [Raise] + [Start], racing, departed, n, d - 1);
      events := events + [Look] + [Raise] + [Start] + [Look] + [LeaveRefused];
    }
  }

  lemma Opening(maximum: nat, racing: nat, departed: nat)
    ensures Sofar(maximum, [], Busy(maximum, 0, 0, 0), racing, departed)
  {
  }

  lemma {:induction false} AllLook(maximum: nat, racing: nat, departed: nat, c: nat) returns (events: seq<Event>)
    requires maximum >= 1 && racing >= 1 && c <= racing
    ensures Sofar(maximum, events, Busy(maximum, c, maximum - 1 + departed, departed), racing, departed)
  {
    hide Sofar;
    if c == 0 {
      events := AlmostFull(maximum, racing, departed, maximum - 1 + departed, departed);
    } else {
      events := AllLook(maximum, racing, departed, c - 1);
      LookIn(maximum, events, racing, departed, c - 1, maximum - 1 + departed, departed);
      events := events + [Look];
    }
  }

  lemma {:induction false} AllComeIn(maximum: nat, racing: nat, departed: nat, c: nat) returns (events: seq<Event>)
    requires maximum >= 1 && racing >= 1 && c <= racing
    ensures Sofar(maximum, events, Busy(maximum, racing - c, maximum - 1 + departed + c, departed), racing, departed)
  {
    hide Sofar;
    if c == 0 {
      events := AllLook(maximum, racing, departed, racing);
    } else {
      events := AllComeIn(maximum, racing, departed, c - 1);
      ComeIn(maximum, events, racing, departed, racing - c, maximum - 1 + departed + c - 1, departed);
      events := events + [Raise] + [Start];
    }
  }

  /** The overshoot is attained, for every maximum, every number of racing constructors and every number of refusals; no
      access token is needed for it. */
  lemma RefusalsAdmitMore(maximum: nat, racing: nat, departed: nat) returns (events: seq<Event>)
    requires maximum >= 1 && racing >= 1
    ensures Within(maximum, events, racing, departed)
    ensures After(maximum, events).value.live == maximum - 1 + racing + departed
  {
    events := AllComeIn(maximum, racing, departed, racing);
  }

  /** The limit on publishers holds in every run exactly if constructors check and raise one at a time and no refused
      RPC ends. */
  lemma LimitIffNoneRefused(maximum: nat, racing: nat, departed: nat)
    requires maximum >= 1 && racing >= 1
    ensures (forall events | Within(maximum, events, racing, departed) :: After(maximum, events).value.live <= maximum)
            <==> racing == 1 && departed == 0
  {
    hide After;
    if racing == 1 && departed == 0 {
      forall events | Within(maximum, events, racing, departed)
        ensures After(maximum, events).value.live <= maximum
      {
        LiveBound(maximum, events, racing, departed);
      }
    } else {
      var events := RefusalsAdmitMore(maximum, racing, departed);
    }
  }
}
