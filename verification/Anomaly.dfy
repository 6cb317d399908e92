/** Telling a user about a sign-in that is unlike their last twenty. */
module Anomaly {
  datatype Device = Device(browser: string, os: string)

  predicate KnownDevice(d: Device) { d.browser != "" && d.os != "" }

  /** `place` is the city and country two sign-ins are compared by. */
  datatype Location = Unknown | Located(place: string, latitude: real, longitude: real, accuracy: real)

  /** `at` is in nanoseconds. */
  datatype Login = Login(at: int, device: Device, location: Location)

  datatype Signal = NewDevice | NewLocation | ImpossibleTravel

  /** Kilometres between two points of the earth. */
  type Distance = (Location, Location) -> real

  const MIN_TRAVEL := 300.0
  const MAX_SPEED := 1000.0
  const HOUR := 3_600_000_000_000.0

  function Apart(distance: Distance, earlier: Location, later: Location): real
    requires earlier.Located? && later.Located?
  {
    distance(earlier, later) - earlier.accuracy - later.accuracy
  }

  predicate Impossible(distance: Distance, earlier: Location, later: Location, elapsed: int) {
    earlier.Located? && later.Located? &&
    var apart := Apart(distance, earlier, later);
    if apart < MIN_TRAVEL then false
    else
      var hours := elapsed as real / HOUR;
      if hours <= 0.0 then true else apart / hours > MAX_SPEED
  }

  /**
   Three hundred kilometres apart, and farther than a thousand kilometres an hour allow, all said without the
   division; the uncertainty of both places is taken off the distance, and more time only makes it possible.
  */
  lemma ImpossibleIsTooFar(distance: Distance, earlier: Location, later: Location, elapsed: int, more: int)
    ensures Impossible(distance, earlier, later, elapsed) <==>
      && earlier.Located? && later.Located?
      && var apart := distance(earlier, later) - earlier.accuracy - later.accuracy;
         apart >= 300.0 && (elapsed <= 0 || apart * 3_600_000_000_000.0 > 1000.0 * elapsed as real)
    ensures elapsed <= more && Impossible(distance, earlier, later, more) ==>
      Impossible(distance, earlier, later, elapsed)
  {
    if earlier.Located? && later.Located? && Apart(distance, earlier, later) >= MIN_TRAVEL {
      FasterThan(Apart(distance, earlier, later), elapsed as real);
      FasterThan(Apart(distance, earlier, later), more as real);
    }
  }

  lemma FasterThan(apart: real, elapsed: real)
    requires apart >= MIN_TRAVEL
    ensures elapsed / HOUR <= 0.0 <==> elapsed <= 0.0
    ensures elapsed > 0.0 ==> (apart / (elapsed / HOUR) > MAX_SPEED <==> apart * HOUR > MAX_SPEED * elapsed)
  {
    if elapsed > 0.0 {
      var hours := elapsed / HOUR;
      assert hours * HOUR == elapsed;
      var speed := apart / hours;
      assert speed * hours == apart;
      assert speed > MAX_SPEED <==> speed * hours > MAX_SPEED * hours;
    }
  }

  // The decision.

  predicate SeenDevice(history: seq<Login>, d: Device) {
    exists i :: 0 <= i < |history| && history[i].device == d
  }

  predicate SeenPlace(history: seq<Login>, place: string) {
    exists i :: 0 <= i < |history| && history[i].location.Located? && history[i].location.place == place
  }

  predicate IsNewDevice(current: Login, history: seq<Login>) {
    history != [] && KnownDevice(current.device) && !SeenDevice(history, current.device)
  }

  predicate IsNewPlace(current: Login, history: seq<Login>) {
    history != [] && current.location.Located? && !SeenPlace(history, current.location.place)
  }

  /** `history` is most recent first; only its first entry is compared for travel. */
  predicate IsTravel(distance: Distance, current: Login, history: seq<Login>) {
    history != [] && Impossible(distance, history[0].location, current.location, current.at - history[0].at)
  }

  method Assess(distance: Distance, current: Login, history: seq<Login>) returns (signals: seq<Signal>)
    ensures signals ==
      (if IsNewDevice(current, history) then [NewDevice] else []) +
      (if IsNewPlace(current, history) then [NewLocation] else []) +
      (if IsTravel(distance, current, history) then [ImpossibleTravel] else [])
  {
    if |history| == 0 {
      return [];
    }
    signals := [];
    if KnownDevice(current.device) {
      var seen := false;
      for i := 0 to |history|
        invariant !seen && forall k :: 0 <= k < i ==> history[k].device != current.device
      {
        if history[i].device == current.device {
          seen := true;
          break;
        }
      }
      if !seen {
        signals := signals + [NewDevice];
      }
    }
    if current.location.Located? {
      var seen := false;
      for i := 0 to |history|
        invariant !seen
        invariant forall k :: 0 <= k < i ==>
          !(history[k].location.Located? && history[k].location.place == current.location.place)
      {
        if history[i].location.Located? && history[i].location.place == current.location.place {
          seen := true;
          break;
        }
      }
      if !seen {
        signals := signals + [NewLocation];
      }
      var previous := history[0];
      if Impossible(distance, previous.location, current.location, current.at - previous.at) {
        signals := signals + [ImpossibleTravel];
      }
    }
  }

  // The window.

  const DEPTH := 20

  function Reverse(s: seq<Login>): seq<Login> {
    seq(|s|, i requires 0 <= i < |s| => s[|s| - 1 - i])
  }

  /** The last sign-ins before this one, most recent first. */
  function Recent(past: seq<Login>, depth: nat): seq<Login> {
    Reverse(if |past| <= depth then past else past[|past| - depth..])
  }

  /** The history is the last `depth` sign-ins, and its first entry the sign-in just before this one. */
  lemma RecentIs(past: seq<Login>, depth: nat)
    ensures |Recent(past, depth)| == if |past| <= depth then |past| else depth
    ensures forall k :: 0 <= k < |Recent(past, depth)| ==> Recent(past, depth)[k] == past[|past| - 1 - k]
    ensures forall i :: 0 <= i < |past| && |past| - i <= depth ==> past[i] == Recent(past, depth)[|past| - 1 - i]
  {
  }

  predicate SamePlace(a: Login, b: Login) {
    a.location.Located? && b.location.Located? && a.location.place == b.location.place
  }

  /** A known device that none of the last twenty sign-ins was made with, after a first one. */
  predicate UnseenDevice(past: seq<Login>, current: Login) {
    && past != [] && current.device.browser != "" && current.device.os != ""
    && forall i :: 0 <= i < |past| && |past| - i <= 20 ==> past[i].device != current.device
  }

  predicate UnseenPlace(past: seq<Login>, current: Login) {
    && past != [] && current.location.Located?
    && forall i :: 0 <= i < |past| && |past| - i <= 20 ==> !SamePlace(past[i], current)
  }

  lemma UnseenIsNew(past: seq<Login>, current: Login)
    ensures IsNewDevice(current, Recent(past, DEPTH)) <==> UnseenDevice(past, current)
    ensures IsNewPlace(current, Recent(past, DEPTH)) <==> UnseenPlace(past, current)
  {
    RecentIs(past, DEPTH);
  }

  lemma TravelIsFromTheLast(distance: Distance, past: seq<Login>, current: Login)
    ensures IsTravel(distance, current, Recent(past, DEPTH)) <==>
      && past != []
      && var last := past[|past| - 1];
         Impossible(distance, last.location, current.location, current.at - last.at)
  {
    RecentIs(past, DEPTH);
  }

  /** `past` are the user's earlier sessions, oldest first; `up` says whether they can be read. */
  method Observe(distance: Distance, past: seq<Login>, current: Login, up: bool) returns (signals: seq<Signal>)
    ensures NewDevice in signals <==> up && UnseenDevice(past, current)
    ensures NewLocation in signals <==> up && UnseenPlace(past, current)
    ensures ImpossibleTravel in signals <==>
      && up && past != []
      && var last := past[|past| - 1];
         Impossible(distance, last.location, current.location, current.at - last.at)
    ensures forall i, j :: 0 <= i < j < |signals| ==> signals[i] != signals[j]
  {
    if !up {
      return [];
    }
    var rows := Recent(past, DEPTH);
    var history := [];
    for i := 0 to |rows|
      invariant history == rows[..i]
    {
      history := history + [rows[i]];
    }
    assert history == rows;
    UnseenIsNew(past, current);
    TravelIsFromTheLast(distance, past, current);
    signals := Assess(distance, current, history);
  }

  /** Login `j` of a user was flagged for its device, or for its place. */
  predicate DeviceFlagged(logins: seq<Login>, j: nat)
    requires j < |logins|
  {
    IsNewDevice(logins[j], Recent(logins[..j], DEPTH))
  }

  predicate PlaceFlagged(logins: seq<Login>, j: nat)
    requires j < |logins|
  {
    IsNewPlace(logins[j], Recent(logins[..j], DEPTH))
  }

  /**
   A sign-in is flagged for its device exactly when it is not the first, the device is known, and none of
   the twenty before it was made with it.
  */
  lemma DeviceFlaggedIff(logins: seq<Login>, j: nat)
    requires j < |logins|
    ensures DeviceFlagged(logins, j) <==>
      && j > 0 && logins[j].device.browser != "" && logins[j].device.os != ""
      && forall i :: 0 <= i < j && j - i <= 20 ==> logins[i].device != logins[j].device
  {
    UnseenIsNew(logins[..j], logins[j]);
    assert forall i :: 0 <= i < j ==> logins[..j][i] == logins[i];
  }

  lemma PlaceFlaggedIff(logins: seq<Login>, j: nat)
    requires j < |logins|
    ensures PlaceFlagged(logins, j) <==>
      && j > 0 && logins[j].location.Located?
      && forall i :: 0 <= i < j && j - i <= 20 ==> !SamePlace(logins[i], logins[j])
  {
    UnseenIsNew(logins[..j], logins[j]);
    assert forall i :: 0 <= i < j ==> logins[..j][i] == logins[i];
  }

  /** Quiet: after a sign-in from a device or a place, none of the next twenty is flagged for the same one. */
  lemma QuietForTwentySignIns(logins: seq<Login>, i: nat, j: nat)
    requires i < j < |logins| && j - i <= 20
    ensures logins[j].device == logins[i].device ==> !DeviceFlagged(logins, j)
    ensures SamePlace(logins[i], logins[j]) ==> !PlaceFlagged(logins, j)
  {
    DeviceFlaggedIff(logins, j);
    PlaceFlaggedIff(logins, j);
  }

  function CountDeviceFlags(logins: seq<Login>, d: Device, n: nat): nat
    requires n <= |logins|
  {
    if n == 0 then 0
    else
      (if logins[n - 1].device == d && DeviceFlagged(logins, n - 1) then 1 else 0) + CountDeviceFlags(logins, d, n - 1)
  }

  /** So a user of any number of sign-ins hears of one device at most once in twenty-one. */
  lemma {:induction false} NoticesAreRare(logins: seq<Login>, d: Device, n: nat)
    requires n <= |logins|
    ensures CountDeviceFlags(logins, d, n) * 21 <= n + 20
    decreases n
  {
    if n > 0 {
      if logins[n - 1].device == d && DeviceFlagged(logins, n - 1) {
        var m := if n - 1 <= DEPTH then 0 else n - 1 - DEPTH;
        NothingBefore(logins, d, m, n - 1);
        NoticesAreRare(logins, d, m);
        if m == 0 {
          assert CountDeviceFlags(logins, d, 0) == 0;
        }
      } else {
        NoticesAreRare(logins, d, n - 1);
      }
    }
  }

  /** None of the twenty before a flagged sign-in was made with its device, so none was flagged for it. */
  lemma {:induction false} NothingBefore(logins: seq<Login>, d: Device, m: nat, n: nat)
    requires m <= n < |logins| && n - m <= DEPTH && logins[n].device == d && DeviceFlagged(logins, n)
    ensures CountDeviceFlags(logins, d, n) == CountDeviceFlags(logins, d, m)
  {
    DeviceFlaggedIff(logins, n);
    var k := n;
    while k > m
      invariant m <= k <= n
      invariant CountDeviceFlags(logins, d, n) == CountDeviceFlags(logins, d, k)
    {
      assert logins[k - 1].device != d;
      k := k - 1;
    }
  }

  /**
   Looking further back never adds a notice: to a history that is not empty, older sign-ins can only be
   reasons to stay silent about a device or a place, and are never compared for travel.
  */
  lemma OlderHistoryOnlySilences(distance: Distance, current: Login, history: seq<Login>, older: seq<Login>)
    requires history != []
    ensures IsNewDevice(current, history + older) <==>
      IsNewDevice(current, history) && !SeenDevice(older, current.device)
    ensures current.location.Located? ==>
      (IsNewPlace(current, history + older) <==>
         IsNewPlace(current, history) && !SeenPlace(older, current.location.place))
    ensures IsTravel(distance, current, history + older) <==> IsTravel(distance, current, history)
  {
    var all := history + older;
    forall i | 0 <= i < |older| ensures all[|history| + i] == older[i] {
    }
    forall i | 0 <= i < |history| ensures all[i] == history[i] {
    }
    var device := current.device;
    assert SeenDevice(all, device) <==> SeenDevice(history, device) || SeenDevice(older, device);
    if current.location.Located? {
      var place := current.location.place;
      assert SeenPlace(all, place) <==> SeenPlace(history, place) || SeenPlace(older, place);
    }
  }
}
