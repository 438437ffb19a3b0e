/**
 * The notification server: the `Notify` and `GetServerInformation` methods of
 * the freedesktop.org Desktop Notifications Specification as this overlay
 * implements them. Incoming notifications get an id from a process-wide
 * counter, an urgency decoded from the hints, an expiry deadline and two
 * flags derived from the summary, and are sent to the overlay over a
 * channel. The bus itself is not modelled; the current time is an input in
 * milliseconds.
 */
module Notifications {
  import opened Wrappers
  import opened Ints
  import Text
  import opened Channels

  /** A hint value as sent over the bus: the three unsigned widths the
      urgency decoding accepts, and everything else. */
  datatype Hint = U8(v8: u8) | U16(v16: u16) | U32(v32: u32) | OtherHint

  /** A notification as kept by the overlay; times are in milliseconds. */
  datatype Notification = Notification(
    appName: string,
    summary: string,
    body: string,
    urgency: u8,
    receivedAt: int,
    expiredAt: Option<int>,
    appIcon: string,
    id: u32,
    unmounting: bool,
    reboot: bool,
    replacesId: u32)

  /** Urgency levels of the Desktop Notifications Specification ("Urgency Levels"). */
  const Critical: u8 := 2

  /** How long a non-critical notification without its own timeout stays, in milliseconds. */
  const DefaultLifetime: int := 3000

  /** Summary markers the overlay reacts to. */
  const UnmountingMarker: string := "Unmounting"
  const RebootMarker: string := "Reboot recommended"

  // ---------------------------------------------------------------------------
  // Urgency

  /** The numeric value of an unsigned hint, whatever its width. */
  function HintNumber(h: Hint): Option<nat>
  {
    match h
    case U8(x) => Some(x)
    case U16(x) => Some(x)
    case U32(x) => Some(x)
    case OtherHint => None
  }

  /** `get_u8`: the hint under `key` as a byte, 0 when it is missing, not an
      unsigned integer, or too wide to fit. */
  function GetU8(hints: map<string, Hint>, key: string): (r: u8)
    ensures key !in hints ==> r == 0
    ensures key in hints && hints[key].U8? ==> r == hints[key].v8
    ensures r != 0 ==> key in hints && HintNumber(hints[key]) == Some(r)
  {
    if key !in hints then 0
    else match hints[key]
      case U8(x) => x
      case U16(x) => if x <= 0xFF then x else 0
      case U32(x) => if x <= 0xFF then x else 0
      case OtherHint => 0
  }

  /** Whatever the width, a value that fits in a byte is read as is and a
      wider one reads as 0. */
  lemma GetU8ByValue(hints: map<string, Hint>, key: string)
    requires key in hints && HintNumber(hints[key]).Some?
    ensures var n := HintNumber(hints[key]).value;
      GetU8(hints, key) == if n <= 0xFF then n else 0
  {
  }

  // ---------------------------------------------------------------------------
  // Expiry

  /** The expiry deadline of a notification received at `now`: `timeout` is
      taken as seconds when it is above 1; otherwise a non-critical
      notification lives `DefaultLifetime` and a critical one never expires. */
  function ExpiryDeadline(now: int, timeout: i32, urgency: u8): (r: Option<int>)
    ensures r.None? <==> timeout <= 1 && urgency >= Critical
    ensures r.Some? ==> r.value >= now + 2000
    ensures timeout > 1 ==> r == Some(now + timeout * 1000)
    ensures timeout <= 1 && urgency < Critical ==> r == Some(now + DefaultLifetime)
  {
    if timeout > 1 then Some(now + timeout * 1000)
    else if urgency < Critical then Some(now + DefaultLifetime)
    else None
  }

  /** The specification gives -1 ("server default") and 0 ("never expire")
      different meanings; here they behave the same, and like 1. */
  lemma SmallTimeoutsAgree(now: int, urgency: u8)
    ensures ExpiryDeadline(now, -1, urgency) == ExpiryDeadline(now, 0, urgency) == ExpiryDeadline(now, 1, urgency)
  {
  }

  /** A later arrival never expires earlier, for the same timeout and urgency. */
  lemma ExpiryMonotone(t1: int, t2: int, timeout: i32, urgency: u8)
    requires t1 <= t2
    ensures ExpiryDeadline(t1, timeout, urgency).Some? == ExpiryDeadline(t2, timeout, urgency).Some?
    ensures ExpiryDeadline(t1, timeout, urgency).Some? ==>
      ExpiryDeadline(t1, timeout, urgency).value <= ExpiryDeadline(t2, timeout, urgency).value
  {
  }

  // ---------------------------------------------------------------------------
  // Ids

  /** The id handed out by the `k`-th call (from 0) of `generate_id`: the
      counter starts at 2 and wraps around at 2^32. */
  function IdAt(k: nat): (r: u32)
  {
    (2 + k) % U32Modulus
  }

  /** Ids start at 2 and each call returns one more than the previous one
      until the counter wraps. */
  lemma IdsCount(k: nat)
    ensures IdAt(0) == 2
    ensures IdAt(k) < U32Modulus - 1 ==> IdAt(k + 1) == IdAt(k) + 1
    ensures IdAt(k) == U32Modulus - 1 ==> IdAt(k + 1) == 0
  {
  }

  /** Before the counter wraps, ids are strictly increasing. */
  lemma {:induction false} IdsIncrease(i: nat, j: nat)
    requires i < j && j + 2 < U32Modulus
    ensures IdAt(i) < IdAt(j)
    decreases j - i
  {
    if i + 1 < j {
      IdsIncrease(i + 1, j);
    }
  }

  /** The process-wide counter `NEXT_ID`. */
  class IdCounter {
    var next: u32
    /** How many ids have been handed out. */
    ghost var issued: nat

    ghost predicate Valid()
      reads this
    {
      next == IdAt(issued)
    }

    constructor ()
      ensures Valid() && issued == 0 && next == 2
    {
      next := 2;
      issued := 0;
    }

    /** `generate_id`: a wrapping fetch-and-add. */
    method GenerateId() returns (id: u32)
      requires Valid()
      modifies this
      ensures Valid() && issued == old(issued) + 1
      ensures id == IdAt(old(issued))
    {
      id := next;
      next := (next + 1) % U32Modulus;
      issued := issued + 1;
    }
  }

  // ---------------------------------------------------------------------------
  // The server

  class NotificationServer {
    const counter: IdCounter
    /** The sending half of the channel to the overlay. */
    const tx: Channel<Notification>

    ghost predicate Valid()
      reads this, counter
    {
      counter.Valid()
    }

    constructor (counter: IdCounter, tx: Channel<Notification>)
      requires counter.Valid()
      ensures Valid() && this.counter == counter && this.tx == tx
    {
      this.counter := counter;
      this.tx := tx;
    }

    /** `Notify`: build the notification received at `now` and send it; the
        id it carries is the one returned. */
    method Notify(appName: string, replacesId: u32, appIcon: string, summary: string, body: string,
                  hints: map<string, Hint>, expireTimeout: i32, now: int) returns (id: u32)
      requires Valid()
      modifies counter, tx
      ensures Valid() && counter.issued == old(counter.issued) + 1
      ensures id == IdAt(old(counter.issued))
      ensures |tx.pending| == |old(tx.pending)| + 1 && tx.pending[..|old(tx.pending)|] == old(tx.pending)
      ensures var n := tx.pending[|tx.pending| - 1];
        n.id == id
        && n.appName == appName && n.summary == summary && n.body == body
        && n.appIcon == appIcon && n.replacesId == replacesId
        && n.urgency == GetU8(hints, "urgency")
        && n.receivedAt == now
        && n.expiredAt == ExpiryDeadline(now, expireTimeout, n.urgency)
        && (n.unmounting <==> exists i: nat :: Text.OccursAt(summary, UnmountingMarker, i))
        && (n.reboot <==> exists i: nat :: Text.OccursAt(summary, RebootMarker, i))
    {
      var urgency := GetU8(hints, "urgency");
      var expiredAt := ExpiryDeadline(now, expireTimeout, urgency);
      id := counter.GenerateId();
      Text.ContainsIff(summary, UnmountingMarker);
      Text.ContainsIff(summary, RebootMarker);
      var n := Notification(appName, summary, body, urgency, now, expiredAt, appIcon, id,
        Text.Contains(summary, UnmountingMarker), Text.Contains(summary, RebootMarker), replacesId);
      tx.Send(n);
    }

    /** `GetServerInformation`: name, vendor, version and the version of the
        specification implemented. */
    method GetServerInformation() returns (name: string, vendor: string, version: string, specVersion: string)
      ensures name == "Heimdallr" && vendor == "Vincenzo" && version == "1.0" && specVersion == "1.2"
    {
      name, vendor, version, specVersion := "Heimdallr", "Vincenzo", "1.0", "1.2";
    }
  }
}
