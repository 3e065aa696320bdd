/** The DHCP client: obtaining a lease, and keeping track of when to renew and
    when to rebind it (section 4.4.5 of RFC 2131). */
module Dhcp {
  import opened Bytes

  const DEFAULT_LEASE: nat := 900
  const DHCP_OFFER: nat := 2
  const DHCP_ACK: nat := 5
  const DHCP_NAK: nat := 6
  const NO_RESPONSE: nat := 255

  datatype State = Start | Discover | Request | Leased | Rerequest

  datatype Check = Nothing | RenewFail | RenewOk | RebindFail | RebindOk

  /** A time in seconds that a message may give. */
  datatype Given = Absent | Seconds(s: nat)

  /** What one round of the request loop meets with: the message parsed, the
      times it gave, and whether the time allowed is over. */
  datatype Event = Event(messageType: nat, leaseTime: Given, t1: Given, t2: Given, timedOut: bool) {
    predicate InRange() {
      (leaseTime.Seconds? ==> leaseTime.s < TWO32) && (t1.Seconds? ==> t1.s < TWO32) && (t2.Seconds? ==> t2.s < TWO32)
    }
  }

  function Or(given: Given, v: nat): nat {
    match given case Absent => v case Seconds(s) => s
  }

  /** One request: what its rounds meet with, whether there is a socket for it,
      and the clock at its end. */
  datatype Attempt = Attempt(events: seq<Event>, socket: bool, now: nat) {
    predicate Ends() {
      && now < TWO32
      && events != []
      && events[|events| - 1].timedOut
      && forall e | e in events :: e.InRange()
    }
  }

  /** Counting a timer down by `elapsed` seconds; it ends early rather than late. */
  function CountDown(left: nat, elapsed: nat): (r: nat)
    ensures r == 0 || r + elapsed == left
    ensures r > 0 ==> r >= elapsed
    ensures r == 0 ==> left < 2 * elapsed || left == 0
  {
    if left < elapsed * 2 then 0 else left - elapsed
  }

  /** A timer after `n` whole seconds were charged to it. */
  function Charged(left: nat, n: nat): nat {
    if n == 0 then left else CountDown(left, n)
  }

  /** A timer that stood at `was` stands at `now` after `e` seconds: lower by
      these, or at 0 when there were not two such spans left; no second passed
      leaves it alone. */
  predicate CountedDown(was: nat, e: nat, now: nat) {
    && (e == 0 ==> now == was)
    && (e > 0 && 2 * e <= was ==> now + e == was)
    && (e > 0 && was < 2 * e ==> now == 0)
  }

  /** A timer that is not at 0 and does not get there in `e` seconds. */
  predicate Lasts(left: nat, e: nat) {
    left > 0 && 2 * e <= left
  }

  lemma ChargedCountsDown(left: nat, e: nat)
    ensures CountedDown(left, e, Charged(left, e))
    ensures Charged(left, e) != 0 <==> Lasts(left, e)
  {
  }

  // ---- the state machine ----

  /** State of the machine after a round, as the protocol has it: discover, take
      the first offer, and start again when refused or left without response. */
  function NextState(state: State, messageType: nat): State {
    match state
    case Start => Discover
    case Rerequest => Request
    case Discover =>
      if messageType == DHCP_OFFER then Request else if messageType == NO_RESPONSE then Start else Discover
    case Request =>
      if messageType == DHCP_ACK then Leased
      else if messageType == DHCP_NAK || messageType == NO_RESPONSE then Start
      else Request
    case Leased => Leased
  }

  /** Where a run of rounds ends: at a lease, or when the time is over. */
  function EndState(state: State, events: seq<Event>): State
    decreases |events|
  {
    if state == Leased || events == [] then state
    else
      var next := NextState(state, events[0].messageType);
      if next != Leased && events[0].timedOut then next else EndState(next, events[1..])
  }

  /** The state a request leaves, which it enters in `state`. */
  function After(state: State, a: Attempt): State {
    if a.socket then EndState(state, a.events) else state
  }

  /** A lease comes only from an acknowledgement, and from a fresh start only
      after an offer, before the time is over. */
  lemma {:induction false} LeaseNeedsAck(state: State, events: seq<Event>)
    requires state != Leased && EndState(state, events) == Leased
    ensures exists j :: 0 <= j < |events| && AckAt(events, j)
                        && (state == Start || state == Discover ==> OfferBefore(events, j))
    decreases |events|
  {
    var next := NextState(state, events[0].messageType);
    if next == Leased {
      assert AckAt(events, 0);
    } else {
      LeaseNeedsAck(next, events[1..]);
      var j :| 0 <= j < |events[1..]| && AckAt(events[1..], j)
               && (next == Start || next == Discover ==> OfferBefore(events[1..], j));
      assert AckAt(events, j + 1);
      if state == Discover && next == Request {
        assert events[0].messageType == DHCP_OFFER;
        assert OfferBefore(events, j + 1);
      } else if next == Start || next == Discover {
        var i :| 0 <= i < j && events[1..][i].messageType == DHCP_OFFER;
        assert events[i + 1].messageType == DHCP_OFFER;
        assert OfferBefore(events, j + 1);
      }
    }
  }

  predicate AckAt(events: seq<Event>, j: nat)
    requires j < |events|
  {
    events[j].messageType == DHCP_ACK && forall i | 0 <= i < j :: !events[i].timedOut
  }

  predicate OfferBefore(events: seq<Event>, j: nat)
    requires j < |events|
  {
    exists i :: 0 <= i < j && events[i].messageType == DHCP_OFFER
  }

  class DhcpClient {
    var state: State
    var leaseTime: nat
    var t1: nat
    var t2: nat
    var renewInSec: nat
    var rebindInSec: nat
    var lastCheckLeaseMillis: nat

    // The time of the last lease request, the milliseconds that have really
    // passed since, and the whole seconds charged to the timers.
    ghost var requestedAt: nat
    ghost var total: nat
    ghost var charged: nat

    predicate Valid()
      reads this
    {
      && leaseTime < TWO32
      && t1 < TWO32
      && t2 < TWO32
      && renewInSec < TWO32
      && rebindInSec < TWO32
      && lastCheckLeaseMillis < TWO32
    }

    /** The clock reading kept is that of the last whole second charged, and the
        timers do not run late. */
    ghost predicate OnTime()
      reads this
    {
      && lastCheckLeaseMillis == (requestedAt + 1000 * charged) % TWO32
      && charged == total / 1000
      && (state == Leased ==> NotLate())
    }

    /** Neither timer exceeds the time really left. */
    ghost predicate NotLate()
      reads this`renewInSec, this`rebindInSec, this`t1, this`t2, this`total
    {
      && (renewInSec == 0 || renewInSec + total / 1000 <= t1)
      && (rebindInSec == 0 || rebindInSec + total / 1000 <= t2)
    }

    constructor ()
      ensures Valid() && OnTime() && state == Start
    {
      state := Start;
      leaseTime, t1, t2, renewInSec, rebindInSec, lastCheckLeaseMillis := 0, 0, 0, 0, 0, 0;
      requestedAt, total, charged := 0, 0, 0;
    }

    /** Take over the times given in a message. */
    method ParseResponse(e: Event)
      requires Valid() && e.InRange()
      modifies this`leaseTime, this`t1, this`t2, this`renewInSec
      ensures Valid()
      ensures leaseTime == Or(e.leaseTime, old(leaseTime)) && t1 == Or(e.t1, old(t1)) && t2 == Or(e.t2, old(t2))
      ensures renewInSec == Or(e.leaseTime, old(renewInSec))
    {
      if e.leaseTime.Seconds? {
        leaseTime := e.leaseTime.s;
        renewInSec := leaseTime;
      }
      if e.t1.Seconds? {
        t1 := e.t1.s;
      }
      if e.t2.Seconds? {
        t2 := e.t2.s;
      }
    }

    /** A lease was acknowledged: fill in what the server left out. */
    method Acknowledge()
      requires Valid()
      modifies this`state, this`leaseTime, this`t1, this`t2, this`renewInSec, this`rebindInSec
      ensures Valid() && state == Leased && leaseTime != 0 && t2 != 0
      ensures renewInSec == t1 && rebindInSec == t2
      ensures leaseTime == if old(leaseTime) == 0 then DEFAULT_LEASE else old(leaseTime)
      ensures t1 == if old(t1) == 0 then leaseTime / 2 else old(t1)
      ensures t2 == if old(t2) == 0 then leaseTime - leaseTime / 8 else old(t2)
    {
      state := Leased;
      if leaseTime == 0 {
        leaseTime := DEFAULT_LEASE;
      }
      if t1 == 0 {
        t1 := leaseTime / 2;
      }
      if t2 == 0 {
        t2 := leaseTime - leaseTime / 8;
      }
      renewInSec, rebindInSec := t1, t2;
    }

    /** One round of the request loop. */
    method Round(e: Event, before: nat) returns (messageType: nat)
      requires Valid() && e.InRange() && state != Leased && before != NO_RESPONSE
      modifies this`state, this`leaseTime, this`t1, this`t2, this`renewInSec, this`rebindInSec
      ensures Valid() && messageType != NO_RESPONSE
      ensures state == NextState(old(state), e.messageType)
      ensures state == Leased <==> old(state) == Request && e.messageType == 5
      ensures old(state) == Discover ==> (state == Request <==> e.messageType == 2)
      ensures old(state) == Request ==> (state == Start <==> e.messageType == 6 || e.messageType == 255)
      ensures old(state) == Discover || old(state) == Request ==>
                leaseTime == (if state == Leased && Or(e.leaseTime, old(leaseTime)) == 0 then 900
                              else Or(e.leaseTime, old(leaseTime)))
                && t1 == (if state == Leased && Or(e.t1, old(t1)) == 0 then leaseTime / 2 else Or(e.t1, old(t1)))
                && t2 == (if state == Leased && Or(e.t2, old(t2)) == 0 then leaseTime - leaseTime / 8
                          else Or(e.t2, old(t2)))
      ensures state == Leased ==> renewInSec == t1 && rebindInSec == t2 != 0 && leaseTime != 0
      ensures state != Leased ==> rebindInSec == old(rebindInSec)
    {
      messageType := before;
      if state == Start {
        state := Discover;
      } else if state == Rerequest {
        state := Request;
      } else if state == Discover {
        messageType := e.messageType;
        ParseResponse(e);
        if messageType == DHCP_OFFER {
          state := Request;
        }
      } else if state == Request {
        messageType := e.messageType;
        ParseResponse(e);
        if messageType == DHCP_ACK {
          Acknowledge();
        } else if messageType == DHCP_NAK {
          state := Start;
        }
      }
      if messageType == NO_RESPONSE {
        messageType := 0;
        state := Start;
      }
    }

    /** Run the protocol until there is a lease or the time is over. */
    method RequestLease(a: Attempt) returns (result: nat)
      requires Valid() && a.Ends() && state != Leased
      modifies this
      ensures Valid()
      ensures result == if state == Leased then 1 else 0
      ensures a.socket ==> state == EndState(old(state), a.events)
      ensures state == Leased ==> renewInSec == t1 && rebindInSec == t2 != 0 && leaseTime != 0
      ensures state != Leased ==> rebindInSec == old(rebindInSec)
      ensures a.socket ==> OnTime() && total == 0
      ensures !a.socket ==> result == 0 && state == old(state) && (old(OnTime()) ==> OnTime())
    {
      if !a.socket {
        return 0;
      }
      var messageType, i := 0, 0;
      assert a.events[0..] == a.events;
      while state != Leased
        invariant Valid() && 0 <= i <= |a.events| && (state == Leased || i < |a.events|) && messageType != NO_RESPONSE
        invariant EndState(state, a.events[i..]) == EndState(old(state), a.events)
        invariant state == Leased ==> renewInSec == t1 && rebindInSec == t2 != 0 && leaseTime != 0
        invariant state != Leased ==> rebindInSec == old(rebindInSec)
        decreases |a.events| - i
      {
        var e := a.events[i];
        assert a.events[i..][1..] == a.events[i + 1..];
        messageType := Round(e, messageType);
        i := i + 1;
        if state != Leased && e.timedOut {
          break;
        }
      }
      result := if state == Leased then 1 else 0;
      lastCheckLeaseMillis := a.now;
      requestedAt, total, charged := a.now, 0, 0;
    }

    /** Whole seconds since the clock reading kept, as 32 bits show them. */
    function Seconds(now: nat): nat
      requires Valid()
      reads this
    {
      (now + TWO32 - lastCheckLeaseMillis) % TWO32 / 1000
    }

    /** Charge the seconds that have passed to the timers; `ms` is the time that
        really passed since the last request. The seconds charged are all of
        those if and only if less than 2^32 ms had not been charged before. */
    method Charge(now: nat, ghost ms: nat)
      requires Valid() && OnTime() && ms >= total && now == (requestedAt + ms) % TWO32
      modifies this`renewInSec, this`rebindInSec, this`lastCheckLeaseMillis, this`total, this`charged
      ensures Valid() && total == ms
      ensures charged == old(charged) + old(Seconds(now))
      ensures renewInSec == Charged(old(renewInSec), old(Seconds(now)))
      ensures rebindInSec == Charged(old(rebindInSec), old(Seconds(now)))
      ensures charged == ms / 1000 <==> ms - 1000 * old(charged) < TWO32
      ensures ms - 1000 * old(charged) < TWO32 ==> OnTime()
      ensures CountedDown(old(renewInSec), charged - old(charged), renewInSec)
      ensures CountedDown(old(rebindInSec), charged - old(charged), rebindInSec)
    {
      hide CountedDown;
      ghost var rest := ms - 1000 * charged;
      ChargedCountsDown(renewInSec, Seconds(now));
      ChargedCountsDown(rebindInSec, Seconds(now));
      Elapsed(requestedAt, ms, charged);
      var elapsed := (now + TWO32 - lastCheckLeaseMillis) % TWO32;
      if elapsed >= 1000 {
        SecondsCharged(requestedAt, ms, charged, elapsed);
        lastCheckLeaseMillis := (now + TWO32 - elapsed % 1000) % TWO32;
        elapsed := elapsed / 1000;
        renewInSec := CountDown(renewInSec, elapsed);
        rebindInSec := CountDown(rebindInSec, elapsed);
        charged := charged + elapsed;
      } else {
        NothingCharged(ms, charged, elapsed);
      }
      total := ms;
    }

    /** Keep the lease: charge the time, then renew or rebind when due. A renewal
        that succeeds (`renewed`) is not followed by a rebind. */
    method CheckLease(now: nat, ghost ms: nat, renew: Attempt, rebind: Attempt)
      returns (rc: Check, ghost renewed: bool)
      requires Valid() && OnTime() && ms >= total && now == (requestedAt + ms) % TWO32
      requires renew.Ends() && rebind.Ends()
      modifies this
      ensures Valid()
      ensures rc != Nothing <==>
                || (old(state) == Leased && Charged(old(renewInSec), old(Seconds(now))) == 0)
                || ((old(state) == Leased || old(state) == Start) && Charged(old(rebindInSec), old(Seconds(now))) == 0)
      ensures rc == Nothing ==> state == old(state) && total == ms && requestedAt == old(requestedAt)
      ensures rc == Nothing ==> renewInSec == Charged(old(renewInSec), old(Seconds(now)))
                                && rebindInSec == Charged(old(rebindInSec), old(Seconds(now)))
      ensures rc == RebindFail || rc == RebindOk ==> Charged(old(rebindInSec), old(Seconds(now))) == 0
      ensures rc == Nothing ==> CountedDown(old(renewInSec), old(Seconds(now)), renewInSec)
                                && CountedDown(old(rebindInSec), old(Seconds(now)), rebindInSec)
      ensures old(state) == Leased ==>
                (rc == Nothing <==>
                   Lasts(old(renewInSec), old(Seconds(now))) && Lasts(old(rebindInSec), old(Seconds(now))))
      ensures rc == Nothing && ms - 1000 * old(charged) < TWO32 ==> OnTime() && charged == ms / 1000
      ensures rc == RenewOk || rc == RebindOk ==> state == Leased && renewInSec == t1 && rebindInSec == t2 != 0
      ensures rc == RenewFail || rc == RebindFail ==> state != Leased
      ensures rc == RenewOk || rc == RenewFail ==> old(state) == Leased
      ensures renewed <==> rc == RenewOk
      ensures rc == RenewOk || rc == RebindOk ==> OnTime() && total == 0
      ensures rc == RenewOk || rc == RenewFail ==> state == After(Rerequest, renew)
      ensures rc == RebindOk || rc == RebindFail ==> state == After(Start, rebind)
      ensures old(state) == Leased && !Lasts(old(renewInSec), old(Seconds(now))) ==>
                && (rc == RenewOk <==> After(Rerequest, renew) == Leased)
                && (rc == RebindOk || rc == RebindFail <==>
                      After(Rerequest, renew) == Start && !Lasts(old(rebindInSec), old(Seconds(now))))
    {
      hide CountedDown, Lasts, Charged;
      rc, renewed := Nothing, false;
      ChargedCountsDown(renewInSec, Seconds(now));
      ChargedCountsDown(rebindInSec, Seconds(now));
      Charge(now, ms);
      if renewInSec == 0 && state == Leased {
        state := Rerequest;
        var result := RequestLease(renew);
        rc := if result == 1 then RenewOk else RenewFail;
        renewed := result == 1;
      }
      if rebindInSec == 0 && (state == Leased || state == Start) {
        state := Start;
        var result := RequestLease(rebind);
        rc := if result == 1 then RebindOk else RebindFail;
      }
    }
  }

  /** The difference of two readings of the clock, as it comes out in 32 bits. */
  lemma Elapsed(start: nat, ms: nat, c: nat)
    requires ms >= 1000 * c
    ensures var elapsed := ((start + ms) % TWO32 + TWO32 - (start + 1000 * c) % TWO32) % TWO32;
            && elapsed == (ms - 1000 * c) % TWO32
            && (ms - 1000 * c < TWO32 ==> elapsed == ms - 1000 * c)
            && (ms - 1000 * c >= TWO32 ==> elapsed + TWO32 <= ms - 1000 * c)
  {
    var p, q := (start + ms) / TWO32, (start + 1000 * c) / TWO32;
    Congruent((start + ms) % TWO32 + TWO32 - (start + 1000 * c) % TWO32, ms - 1000 * c, q - p + 1);
  }

  lemma Congruent(a: int, b: int, k: int)
    requires a == b + TWO32 * k
    ensures a % TWO32 == b % TWO32
  {
    assert b == TWO32 * (b / TWO32) + b % TWO32;
    assert a == TWO32 * (b / TWO32 + k) + b % TWO32;
  }

  lemma SecondsCharged(start: nat, ms: nat, c: nat, elapsed: nat)
    requires ms >= 1000 * c && 1000 <= elapsed
    requires if ms - 1000 * c < TWO32 then elapsed == ms - 1000 * c else elapsed + TWO32 <= ms - 1000 * c
    ensures c + elapsed / 1000 == ms / 1000 <==> ms - 1000 * c < TWO32
    ensures ms - 1000 * c < TWO32 ==>
              ((start + ms) % TWO32 + TWO32 - elapsed % 1000) % TWO32 == (start + 1000 * (c + elapsed / 1000)) % TWO32
  {
    if ms - 1000 * c < TWO32 {
      assert elapsed == 1000 * (elapsed / 1000) + elapsed % 1000;
      assert start + ms == TWO32 * ((start + ms) / TWO32) + (start + ms) % TWO32;
      Congruent((start + ms) % TWO32 + TWO32 - elapsed % 1000, start + 1000 * (c + elapsed / 1000),
                1 - (start + ms) / TWO32);
    }
  }

  /** Calls less than 2^32 ms apart are not enough: with a call after 999 ms,
      which charges nothing, and the next one 2^32 - 1 ms later, time is lost.
      The clock shows `first` and `second` then. */
  method GapLosesTime(c: DhcpClient, first: nat, second: nat)
    requires c.Valid() && c.OnTime() && c.total == 0 && c.charged == 0
    requires first == (c.requestedAt + 999) % TWO32
    requires second == (c.requestedAt + 999 + (TWO32 - 1)) % TWO32
    modifies c`renewInSec, c`rebindInSec, c`lastCheckLeaseMillis, c`total, c`charged
    ensures c.total == 999 + (TWO32 - 1) && c.charged < c.total / 1000
  {
    c.Charge(first, 999);
    c.Charge(second, 999 + (TWO32 - 1));
  }

  lemma NothingCharged(ms: nat, c: nat, elapsed: nat)
    requires ms >= 1000 * c && elapsed < 1000
    requires if ms - 1000 * c < TWO32 then elapsed == ms - 1000 * c else elapsed + TWO32 <= ms - 1000 * c
    ensures c == ms / 1000 <==> ms - 1000 * c < TWO32
  {
  }
}
