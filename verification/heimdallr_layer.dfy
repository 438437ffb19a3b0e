/**
 * The overlay's state object `HeimdallrLayer`: the status icons, battery
 * fields, the notification list and its cursor, the throttled redraw
 * bookkeeping, the surface size and the map of shared-memory buffers still
 * held by the compositor. Rendering is not modelled: a draw is seen through
 * the state it changes (the redraw flag, the redraw time, the buffer it adds
 * and the cursor clamp of the notification banner).
 */
module Layer {
  import opened Wrappers
  import opened Ints
  import Config
  import Notifications

  type Color = (real, real, real, real)

  /** One status icon: its glyph, RGBA colour and the warning level it shows. */
  datatype AlarmIcon = AlarmIcon(symbol: string, color: Color, warn: real)

  /** Wayland object ids of buffers. */
  type BufferId = nat

  /** Size a zero configure dimension falls back to. */
  const DefaultWidth: u32 := 1920
  const DefaultHeight: u32 := 1080

  /** The fields of `HeimdallrLayer` that the event loop reads and writes. */
  datatype State = State(
    icons: map<string, AlarmIcon>,
    batteryEta: Option<real>,
    batteryRecharging: Option<bool>,
    needsRedraw: bool,
    notifications: seq<Notifications.Notification>,
    notificationIdx: nat,
    ratatoskrConnected: bool)

  /** `Vec::remove`: the list without its element at `i`, the others in order. */
  function RemoveAt<T>(s: seq<T>, i: nat): (r: seq<T>)
    requires i < |s|
    ensures |r| == |s| - 1
    ensures forall j :: 0 <= j < i ==> r[j] == s[j]
    ensures forall j :: i <= j < |r| ==> r[j] == s[j + 1]
    ensures multiset(r) + multiset{s[i]} == multiset(s)
  {
    assert s == s[..i] + [s[i]] + s[i + 1..];
    s[..i] + s[i + 1..]
  }

  class HeimdallrLayer {
    var width: u32
    var height: u32
    var firstConfigure: bool
    var icons: map<string, AlarmIcon>
    var batteryEta: Option<real>
    var batteryRecharging: Option<bool>
    var needsRedraw: bool
    /** When the last draw happened, in milliseconds. */
    var lastRedraw: int
    /** Minimum time between two draws that are not part of an animation, in milliseconds. */
    const redrawInterval: nat
    /** Buffers handed to the compositor and not yet released. */
    var buffers: set<BufferId>
    const config: Config.Config
    var notifications: seq<Notifications.Notification>
    /** The notification the banner shows. */
    var notificationIdx: nat
    var ratatoskrConnected: bool

    function Snapshot(): (s: State)
      reads this
      ensures s.icons == icons && s.notifications == notifications && s.notificationIdx == notificationIdx
      ensures s.needsRedraw == needsRedraw && s.ratatoskrConnected == ratatoskrConnected
      ensures s.batteryEta == batteryEta && s.batteryRecharging == batteryRecharging
    {
      State(icons, batteryEta, batteryRecharging, needsRedraw, notifications, notificationIdx, ratatoskrConnected)
    }

    /** The initial state built by the program before its loop; `now` is the
        start time and `screenHeight` the configured height. */
    constructor (screenHeight: u32, config: Config.Config, now: int)
      ensures width == DefaultWidth && height == screenHeight && firstConfigure
      ensures icons == map[] && batteryEta == None && batteryRecharging == None
      ensures needsRedraw && lastRedraw == now && redrawInterval == 1000
      ensures buffers == {} && this.config == config
      ensures notifications == [] && notificationIdx == 0 && !ratatoskrConnected
    {
      width := DefaultWidth;
      height := screenHeight;
      firstConfigure := true;
      icons := map[];
      ratatoskrConnected := false;
      batteryEta := None;
      batteryRecharging := None;
      needsRedraw := true;
      lastRedraw := now;
      redrawInterval := 1000;
      buffers := {};
      this.config := config;
      notifications := [];
      notificationIdx := 0;
    }

    /** `request_redraw`; the reason is only logged. */
    method RequestRedraw(reason: string)
      modifies this`needsRedraw
      ensures needsRedraw
    {
      needsRedraw := true;
    }

    /** `maybe_redraw` at time `now`: `animating` is whether the animator
        advanced a frame, and `buffer` the id of the buffer a draw would use. */
    method MaybeRedraw(animating: bool, now: int, buffer: BufferId) returns (drew: bool)
      modifies this`needsRedraw, this`lastRedraw, this`buffers, this`notificationIdx
      ensures drew <==> animating || (old(needsRedraw) && now - old(lastRedraw) >= redrawInterval)
      ensures drew ==> !needsRedraw && lastRedraw == now && buffers == old(buffers) + {buffer}
      ensures drew ==> notificationIdx == BannerIndex(old(notificationIdx), |notifications|)
      ensures !drew ==> (needsRedraw == old(needsRedraw) && lastRedraw == old(lastRedraw)
        && buffers == old(buffers) && notificationIdx == old(notificationIdx))
    {
      if !animating {
        if !needsRedraw {
          return false;
        }
        if now - lastRedraw < redrawInterval {
          return false;
        }
      }
      needsRedraw := false;
      Draw(now, buffer);
      drew := true;
    }

    /** The state effects of `draw` at time `now` into buffer `buffer`. */
    method Draw(now: int, buffer: BufferId)
      modifies this`needsRedraw, this`lastRedraw, this`buffers, this`notificationIdx
      ensures !needsRedraw && lastRedraw == now && buffers == old(buffers) + {buffer}
      ensures notificationIdx == BannerIndex(old(notificationIdx), |notifications|)
      ensures notifications != [] ==> notificationIdx < |notifications|
    {
      needsRedraw := false;
      buffers := buffers + {buffer};
      if |notifications| > 0 {
        DrawNotification();
      }
      lastRedraw := now;
    }

    /** The cursor clamp at the start of `draw_notification`. */
    method DrawNotification()
      requires notifications != []
      modifies this`notificationIdx
      ensures notificationIdx == BannerIndex(old(notificationIdx), |notifications|)
      ensures notificationIdx < |notifications|
      ensures old(notificationIdx) < |notifications| ==> notificationIdx == old(notificationIdx)
    {
      if notificationIdx >= |notifications| {
        notificationIdx := |notifications| - 1;
      }
    }

    /** `add_icon`. */
    method AddIcon(id: string, symbol: string, color: Color, warn: real)
      modifies this`icons
      ensures id in icons && icons[id] == AlarmIcon(symbol, color, warn)
      ensures forall k :: k != id ==> (k in icons <==> k in old(icons)) && (k in icons ==> icons[k] == old(icons)[k])
    {
      icons := icons[id := AlarmIcon(symbol, color, warn)];
    }

    /** `remove_icon`: whether there was an icon to remove. */
    method RemoveIcon(id: string) returns (existed: bool)
      modifies this`icons
      ensures existed <==> id in old(icons)
      ensures id !in icons
      ensures forall k :: k != id ==> (k in icons <==> k in old(icons)) && (k in icons ==> icons[k] == old(icons)[k])
    {
      existed := id in icons;
      icons := icons - {id};
    }

    /** `remove_notification`: drop the notification under the cursor, if any. */
    method RemoveNotification() returns (removed: bool)
      modifies this`notifications, this`notificationIdx
      ensures removed <==> old(notificationIdx) < |old(notifications)|
      ensures removed ==> notifications == RemoveAt(old(notifications), old(notificationIdx))
      ensures !removed ==> notifications == old(notifications)
      ensures notificationIdx == old(notificationIdx)
      ensures removed ==> notificationIdx <= |notifications|
    {
      if |notifications| > notificationIdx {
        notifications := RemoveAt(notifications, notificationIdx);
        if notificationIdx > |notifications| {
          // The reset of the cursor to 0 guarded here can never happen: the
          // cursor was below the old length, so it is at most the new one.
          assert false;
        }
        return true;
      }
      return false;
    }

    /** `show_notification`: move the cursor to `newIdx` when it names a notification. */
    method ShowNotification(newIdx: int) returns (shown: bool)
      modifies this`notificationIdx
      ensures shown <==> 0 <= newIdx < |notifications|
      ensures shown ==> notificationIdx == newIdx
      ensures !shown ==> notificationIdx == old(notificationIdx)
    {
      if newIdx >= 0 && newIdx < |notifications| {
        notificationIdx := newIdx;
        return true;
      }
      return false;
    }

    /** The layer-shell `configure` event with the compositor's proposed size;
        the first one triggers a draw at `now` into `buffer`. */
    method Configure(newWidth: u32, newHeight: u32, now: int, buffer: BufferId)
      modifies this`width, this`height, this`firstConfigure, this`needsRedraw, this`lastRedraw, this`buffers, this`notificationIdx
      ensures width == (if newWidth == 0 then DefaultWidth else newWidth)
      ensures height == (if newHeight == 0 then DefaultHeight else newHeight)
      ensures !firstConfigure
      ensures old(firstConfigure) ==> (!needsRedraw && lastRedraw == now && buffers == old(buffers) + {buffer}
        && notificationIdx == BannerIndex(old(notificationIdx), |notifications|))
      ensures !old(firstConfigure) ==> (needsRedraw == old(needsRedraw) && lastRedraw == old(lastRedraw)
        && buffers == old(buffers) && notificationIdx == old(notificationIdx))
    {
      width := if newWidth == 0 then DefaultWidth else newWidth;
      height := if newHeight == 0 then DefaultHeight else newHeight;
      if firstConfigure {
        firstConfigure := false;
        Draw(now, buffer);
      }
    }

    /** The compositor releases `buffer`: forget it. */
    method ReleaseBuffer(buffer: BufferId) returns (present: bool)
      modifies this`buffers
      ensures present <==> buffer in old(buffers)
      ensures buffers == old(buffers) - {buffer}
    {
      present := buffer in buffers;
      buffers := buffers - {buffer};
    }
  }

  /** The cursor after a draw with `len` notifications: unchanged without
      notifications, otherwise pulled back onto the last one when past it. */
  function BannerIndex(idx: nat, len: nat): (r: nat)
    ensures len > 0 ==> r < len
    ensures idx < len || len == 0 ==> r == idx
    ensures len > 0 && idx >= len ==> r == len - 1
  {
    if len > 0 && idx >= len then len - 1 else idx
  }

  /** The notification the banner draws, as written: the first of the list,
      wherever the cursor is. */
  function BannerAsWritten(notifications: seq<Notifications.Notification>, idx: nat): (n: Notifications.Notification)
    requires notifications != []
    ensures n in notifications
  {
    notifications[0]
  }

  /** With two distinct notifications and the cursor on the second, the
      counter reads "2/2" while the banner draws the first one. */
  lemma BannerIgnoresCursor(a: Notifications.Notification, b: Notifications.Notification)
    requires a != b
    ensures BannerIndex(1, |[a, b]|) == 1
    ensures BannerAsWritten([a, b], 1) != [a, b][BannerIndex(1, 2)]
  {
  }

  /** The notification the banner should draw: the one under the cursor
      after the clamp. */
  function Banner(notifications: seq<Notifications.Notification>, idx: nat): (n: Notifications.Notification)
    requires notifications != []
    ensures n in notifications
    ensures idx < |notifications| ==> n == notifications[idx]
    ensures idx >= |notifications| ==> n == notifications[|notifications| - 1]
  {
    notifications[BannerIndex(idx, |notifications|)]
  }
}
