/**
 * One pass of the overlay's event loop over its three queues: at most one
 * command token, then at most one status record, then at most one batch of
 * notifications. The pure functions describe what a pass does to the
 * overlay state; `EventLoop.Tick` performs it on the objects and is proved
 * to agree with them. `gradient` is the colour scale from warning level to
 * RGBA colour, left uninterpreted.
 */
module Reconciler {
  import opened Wrappers
  import Json
  import Layer
  import Notifications
  import Data
  import opened Channels

  type Gradient = real -> Layer.Color

  const HideCommand: string := "hide_notification"
  const PrevCommand: string := "prev_notification"
  const NextCommand: string := "next_notification"

  const BatteryResource: string := "battery"

  /** Glyphs of the resources with a fixed icon. */
  const LoadavgGlyph: string := "\U{F0B22}"
  const RamGlyph: string := "\U{F061A}"
  const DiskGlyph: string := "\U{F02CA}"

  /** A status record below this warning level clears its resource's icon. */
  const IconThreshold: real := 0.3
  /** A status record below this warning level means the status service is reachable. */
  const ConnectedThreshold: real := 0.5

  // ---------------------------------------------------------------------------
  // Commands

  /** `show_notification(n)` followed by a redraw request when it succeeds. */
  function ShowStep(s: Layer.State, n: int): (r: Layer.State)
    ensures 0 <= n < |s.notifications| ==> r == s.(notificationIdx := n, needsRedraw := true)
    ensures !(0 <= n < |s.notifications|) ==> r == s
  {
    if 0 <= n < |s.notifications| then s.(notificationIdx := n, needsRedraw := true) else s
  }

  /** What one command token does to the state. */
  function CommandStep(s: Layer.State, cmd: string): (r: Layer.State)
    ensures cmd != HideCommand && cmd != PrevCommand && cmd != NextCommand ==> r == s
    ensures cmd == PrevCommand && s.notificationIdx == 0 ==> r == s
    ensures cmd == NextCommand && s.notifications == [] ==> r == s
    ensures cmd == HideCommand ==>
      (r.needsRedraw <==> s.needsRedraw || s.notificationIdx < |s.notifications|)
      && |r.notifications| == (if s.notificationIdx < |s.notifications| then |s.notifications| - 1 else |s.notifications|)
    ensures r.notificationIdx <= s.notificationIdx + 1
    ensures r.icons == s.icons && r.ratatoskrConnected == s.ratatoskrConnected
    ensures r.batteryEta == s.batteryEta && r.batteryRecharging == s.batteryRecharging
  {
    if cmd == HideCommand then
      if s.notificationIdx < |s.notifications| then
        s.(notifications := Layer.RemoveAt(s.notifications, s.notificationIdx), needsRedraw := true)
      else s
    else if cmd == PrevCommand then ShowStep(s, s.notificationIdx - 1)
    else if cmd == NextCommand then ShowStep(s, s.notificationIdx + 1)
    else s
  }

  // ---------------------------------------------------------------------------
  // Status records

  /** The charging flag encoded by a battery `state` string. */
  function Recharging(state: string): (r: Option<bool>)
    ensures r == Some(false) <==> state == "Discharging"
    ensures r == Some(true) <==> state == "Charging"
  {
    if state == "Discharging" then Some(false)
    else if state == "Charging" then Some(true)
    else None
  }

  /** The battery fields taken from a "battery" record carrying data; `None`
      when its `state` is not a string, which aborts the program. */
  function BatteryStep(s: Layer.State, msg: Data.PartialMsg): (r: Option<Layer.State>)
    ensures msg.resource != BatteryResource || msg.data.None? ==> r == Some(s)
    ensures r.None? <==> msg.resource == BatteryResource && msg.data.Some? && !Json.Index(msg.data.value, "state").String?
    ensures r.Some? && msg.resource == BatteryResource && msg.data.Some? ==>
      r.value == s.(batteryEta := Json.AsF64(Json.Index(msg.data.value, "eta")),
                    batteryRecharging := Recharging(Json.Index(msg.data.value, "state").s),
                    needsRedraw := true)
  {
    if msg.resource == BatteryResource && msg.data.Some? then
      var bat := msg.data.value;
      match Json.AsStr(Json.Index(bat, "state"))
      case None => None
      case Some(state) =>
        Some(s.(batteryEta := Json.AsF64(Json.Index(bat, "eta")), batteryRecharging := Recharging(state), needsRedraw := true))
    else Some(s)
  }

  /** The glyph a resource's warning icon uses; empty for resources without one. */
  function Glyph(msg: Data.PartialMsg): (g: string)
    ensures msg.resource == "temperature" || msg.resource == "network" ==> g == msg.icon
    ensures msg.resource !in {"loadavg", "ram", "disk", "temperature", "network"} ==> g == ""
    ensures msg.resource in {"loadavg", "ram", "disk"} ==> g != ""
  {
    if msg.resource == "loadavg" then LoadavgGlyph
    else if msg.resource == "ram" then RamGlyph
    else if msg.resource == "temperature" then msg.icon
    else if msg.resource == "network" then msg.icon
    else if msg.resource == "disk" then DiskGlyph
    else ""
  }

  /** The connection flag and the resource's icon, after the battery fields. */
  function IconStep(s: Layer.State, msg: Data.PartialMsg, gradient: Gradient): (r: Layer.State)
    ensures r.ratatoskrConnected <==> msg.warning < ConnectedThreshold
    ensures msg.warning < IconThreshold ==> r.icons == s.icons - {msg.resource}
    ensures msg.warning >= IconThreshold && Glyph(msg) != "" ==>
      r.icons == s.icons[msg.resource := Layer.AlarmIcon(Glyph(msg), gradient(msg.warning), msg.warning)]
    ensures msg.warning >= IconThreshold && Glyph(msg) == "" ==> r.icons == s.icons
    ensures r.needsRedraw <==>
      s.needsRedraw
      || s.ratatoskrConnected != (msg.warning < ConnectedThreshold)
      || (msg.warning < IconThreshold && msg.resource in s.icons)
      || (msg.warning >= IconThreshold && Glyph(msg) != "")
    ensures r.notifications == s.notifications && r.notificationIdx == s.notificationIdx
    ensures r.batteryEta == s.batteryEta && r.batteryRecharging == s.batteryRecharging
  {
    var connected := msg.warning < ConnectedThreshold;
    var s1 := if s.ratatoskrConnected != connected then s.(ratatoskrConnected := connected, needsRedraw := true) else s;
    if msg.warning < IconThreshold then
      if msg.resource in s1.icons then s1.(icons := s1.icons - {msg.resource}, needsRedraw := true) else s1
    else
      var glyph := Glyph(msg);
      if glyph != "" then
        s1.(icons := s1.icons[msg.resource := Layer.AlarmIcon(glyph, gradient(msg.warning), msg.warning)], needsRedraw := true)
      else s1
  }

  /** What one status record does to the state; `None` when it aborts the program. */
  function StatusStep(s: Layer.State, msg: Data.PartialMsg, gradient: Gradient): Option<Layer.State>
  {
    match BatteryStep(s, msg)
    case None => None
    case Some(s1) => Some(IconStep(s1, msg, gradient))
  }

  /** A received batch of notifications replaces the list wholesale. */
  function NotificationStep(s: Layer.State, batch: seq<Notifications.Notification>): (r: Layer.State)
    ensures r.notifications == batch && r.needsRedraw
    ensures r.notificationIdx == s.notificationIdx && r.icons == s.icons
  {
    s.(notifications := batch, needsRedraw := true)
  }

  /** One pass of the loop: the command, then the status record, then the
      batch of notifications, each when its queue had one. */
  function TickSpec(s: Layer.State, cmd: Option<string>, msg: Option<Data.PartialMsg>,
                    batch: Option<seq<Notifications.Notification>>, gradient: Gradient): Option<Layer.State>
  {
    var s1 := if cmd.Some? then CommandStep(s, cmd.value) else s;
    var s2 := if msg.Some? then StatusStep(s1, msg.value, gradient) else Some(s1);
    match s2
    case None => None
    case Some(s3) => Some(if batch.Some? then NotificationStep(s3, batch.value) else s3)
  }

  // ---------------------------------------------------------------------------
  // Properties of the pass

  /** Applying the same record twice is applying it once. */
  lemma StatusStepIdempotent(s: Layer.State, msg: Data.PartialMsg, gradient: Gradient)
    requires StatusStep(s, msg, gradient).Some?
    ensures StatusStep(StatusStep(s, msg, gradient).value, msg, gradient) == StatusStep(s, msg, gradient)
  {
    var s1 := BatteryStep(s, msg).value;
    var s2 := IconStep(s1, msg, gradient);
    var t1 := BatteryStep(s2, msg).value;
    assert t1 == s2;
    var u := IconStep(t1, msg, gradient);
    assert u.icons == s2.icons;
    assert u == s2;
    assert StatusStep(s2, msg, gradient) == Some(u);
  }

  /** Status records applied one after another, stopping at the first abort. */
  function Replay(s: Layer.State, msgs: seq<Data.PartialMsg>, gradient: Gradient): Option<Layer.State>
  {
    if msgs == [] then Some(s)
    else
      match Replay(s, msgs[..|msgs| - 1], gradient)
      case None => None
      case Some(prev) => StatusStep(prev, msgs[|msgs| - 1], gradient)
  }

  /** The connection flag reflects the last record, whatever its resource. */
  lemma ConnectedFollowsLastRecord(s: Layer.State, msgs: seq<Data.PartialMsg>, gradient: Gradient)
    requires msgs != [] && Replay(s, msgs, gradient).Some?
    ensures Replay(s, msgs, gradient).value.ratatoskrConnected <==> msgs[|msgs| - 1].warning < ConnectedThreshold
  {
    var prev := Replay(s, msgs[..|msgs| - 1], gradient).value;
    var last := msgs[|msgs| - 1];
    assert Replay(s, msgs, gradient) == StatusStep(prev, last, gradient);
    assert StatusStep(prev, last, gradient) == Some(IconStep(BatteryStep(prev, last).value, last, gradient));
  }

  /** A record changes its resource's icon: it clears it (below the
      threshold) or sets it (at or above the threshold, with a glyph). A
      record at or above the threshold without a glyph leaves it as it was. */
  predicate TakesEffect(m: Data.PartialMsg) {
    m.warning < IconThreshold || Glyph(m) != ""
  }

  /** The last record about `resource` that changes its icon, if any. */
  function LastEffective(msgs: seq<Data.PartialMsg>, resource: string): (r: Option<Data.PartialMsg>)
    ensures r.Some? ==> r.value in msgs && r.value.resource == resource && TakesEffect(r.value)
  {
    if msgs == [] then None
    else if msgs[|msgs| - 1].resource == resource && TakesEffect(msgs[|msgs| - 1]) then Some(msgs[|msgs| - 1])
    else LastEffective(msgs[..|msgs| - 1], resource)
  }

  /** A resource's icon is decided by the last record about it that takes
      effect: absent when that record is below the threshold, its glyph and
      colour otherwise, and the starting icon (or none) when there is no such
      record. */
  lemma {:induction false} IconFollowsLastRecord(s: Layer.State, msgs: seq<Data.PartialMsg>, resource: string, gradient: Gradient)
    requires Replay(s, msgs, gradient).Some?
    ensures var icons := Replay(s, msgs, gradient).value.icons;
      match LastEffective(msgs, resource)
      case None => (resource in icons <==> resource in s.icons) && (resource in icons ==> icons[resource] == s.icons[resource])
      case Some(m) =>
        if m.warning < IconThreshold then resource !in icons
        else resource in icons && icons[resource] == Layer.AlarmIcon(Glyph(m), gradient(m.warning), m.warning)
    decreases |msgs|
  {
    if msgs != [] {
      var prefix := msgs[..|msgs| - 1];
      var last := msgs[|msgs| - 1];
      IconFollowsLastRecord(s, prefix, resource, gradient);
      if last.resource != resource || !TakesEffect(last) {
        assert LastEffective(msgs, resource) == LastEffective(prefix, resource);
      }
    }
  }

  /** A record at or above the threshold whose resource has no glyph (a
      "temperature" or "network" record with an empty icon) keeps the
      previous icon, with its old glyph, colour and warning level, although
      the record's own level differs. */
  lemma StaleIconKept(s: Layer.State, msgs: seq<Data.PartialMsg>, m: Data.PartialMsg, gradient: Gradient)
    requires Replay(s, msgs, gradient).Some? && Replay(s, msgs + [m], gradient).Some?
    requires m.warning >= IconThreshold && Glyph(m) == ""
    ensures var before := Replay(s, msgs, gradient).value.icons;
      var after := Replay(s, msgs + [m], gradient).value.icons;
      (m.resource in after <==> m.resource in before)
      && (m.resource in after ==> after[m.resource] == before[m.resource])
  {
    var prev := Replay(s, msgs, gradient).value;
    assert (msgs + [m])[..|msgs + [m]| - 1] == msgs;
    assert Replay(s, msgs + [m], gradient) == StatusStep(prev, m, gradient);
    assert StatusStep(prev, m, gradient) == Some(IconStep(BatteryStep(prev, m).value, m, gradient));
  }

  /** Concretely: "temperature" at 0.6 with icon "T", then at 0.9 with an
      empty icon, leaves the icon "T" coloured and levelled for 0.6. */
  lemma StaleTemperatureIcon(s: Layer.State, gradient: Gradient)
    ensures var m1 := Data.PartialMsg("temperature", 0.6, "T", None);
      var m2 := Data.PartialMsg("temperature", 0.9, "", None);
      Replay(s, [m1, m2], gradient).Some?
      && "temperature" in Replay(s, [m1, m2], gradient).value.icons
      && Replay(s, [m1, m2], gradient).value.icons["temperature"] == Layer.AlarmIcon("T", gradient(0.6), 0.6)
  {
    var m1 := Data.PartialMsg("temperature", 0.6, "T", None);
    var m2 := Data.PartialMsg("temperature", 0.9, "", None);
    assert [m1, m2][..1] == [m1] && [m1][..0] == [];
    var s1 := IconStep(s, m1, gradient);
    assert Replay(s, [m1], gradient) == Some(s1);
    assert Replay(s, [m1, m2], gradient) == Some(IconStep(s1, m2, gradient));
    assert LastEffective([m1, m2], "temperature") == Some(m1);
    IconFollowsLastRecord(s, [m1, m2], "temperature", gradient);
  }

  /** Every icon shown has a glyph and a warning level at or above the threshold. */
  ghost predicate IconsWellFormed(icons: map<string, Layer.AlarmIcon>) {
    forall k :: k in icons ==> icons[k].symbol != "" && icons[k].warn >= IconThreshold
  }

  /** A pass keeps the icons well formed. */
  lemma TickKeepsIconsWellFormed(s: Layer.State, cmd: Option<string>, msg: Option<Data.PartialMsg>,
                                 batch: Option<seq<Notifications.Notification>>, gradient: Gradient)
    requires IconsWellFormed(s.icons)
    requires TickSpec(s, cmd, msg, batch, gradient).Some?
    ensures IconsWellFormed(TickSpec(s, cmd, msg, batch, gradient).value.icons)
  {
    var s1 := if cmd.Some? then CommandStep(s, cmd.value) else s;
    if msg.Some? {
      var s2 := BatteryStep(s1, msg.value).value;
      var s3 := IconStep(s2, msg.value, gradient);
      assert IconsWellFormed(s3.icons) by {
        forall k | k in s3.icons ensures s3.icons[k].symbol != "" && s3.icons[k].warn >= IconThreshold {
          if k != msg.value.resource { assert k in s2.icons; }
        }
      }
    }
  }

  /** A pass with a batch of notifications shows exactly that batch and keeps
      the cursor, which may then lie past its end until the next draw. */
  lemma BatchReplacesList(s: Layer.State, cmd: Option<string>, msg: Option<Data.PartialMsg>,
                          batch: seq<Notifications.Notification>, gradient: Gradient)
    requires TickSpec(s, cmd, msg, Some(batch), gradient).Some?
    ensures var r := TickSpec(s, cmd, msg, Some(batch), gradient).value;
      r.notifications == batch && r.needsRedraw
      && r.notificationIdx == (if cmd.Some? then CommandStep(s, cmd.value) else s).notificationIdx
  {
  }

  /** After a successful move of the cursor, the banner shows the notification
      moved to, and the counter numbers it. */
  lemma MovedCursorIsShown(s: Layer.State, cmd: string)
    requires cmd == PrevCommand || cmd == NextCommand
    requires CommandStep(s, cmd) != s
    ensures var r := CommandStep(s, cmd);
      r.notificationIdx < |r.notifications|
      && Layer.BannerIndex(r.notificationIdx, |r.notifications|) == r.notificationIdx
      && Layer.Banner(r.notifications, r.notificationIdx) == r.notifications[r.notificationIdx]
      && r.notificationIdx == (if cmd == PrevCommand then s.notificationIdx - 1 else s.notificationIdx + 1)
  {
  }

  // ---------------------------------------------------------------------------
  // The loop's objects

  class EventLoop {
    const app: Layer.HeimdallrLayer
    const sock: Data.RatatoskrSocket
    /** Command tokens from the command pipe. */
    const rxCmds: Channel<string>
    /** Batches of notifications from the notification server. */
    const rxNotif: Channel<seq<Notifications.Notification>>

    constructor (app: Layer.HeimdallrLayer, sock: Data.RatatoskrSocket,
                 rxCmds: Channel<string>, rxNotif: Channel<seq<Notifications.Notification>>)
      ensures this.app == app && this.sock == sock && this.rxCmds == rxCmds && this.rxNotif == rxNotif
    {
      this.app := app;
      this.sock := sock;
      this.rxCmds := rxCmds;
      this.rxNotif := rxNotif;
    }

    /** React to one command token. */
    method ApplyCommand(cmd: string)
      modifies app`notifications, app`notificationIdx, app`needsRedraw
      ensures app.Snapshot() == CommandStep(old(app.Snapshot()), cmd)
    {
      if cmd == HideCommand {
        var removed := app.RemoveNotification();
        if removed {
          app.RequestRedraw(cmd);
        }
      } else if cmd == PrevCommand {
        var shown := app.ShowNotification(app.notificationIdx - 1);
        if shown {
          app.RequestRedraw(cmd);
        }
      } else if cmd == NextCommand {
        var shown := app.ShowNotification(app.notificationIdx + 1);
        if shown {
          app.RequestRedraw(cmd);
        }
      }
    }

    /** React to one status record; false when the program aborts. */
    method ApplyStatus(msg: Data.PartialMsg, gradient: Gradient) returns (alive: bool)
      modifies app`batteryEta, app`batteryRecharging, app`needsRedraw, app`ratatoskrConnected, app`icons
      ensures alive <==> StatusStep(old(app.Snapshot()), msg, gradient).Some?
      ensures alive ==> app.Snapshot() == StatusStep(old(app.Snapshot()), msg, gradient).value
    {
      alive := ApplyBattery(msg);
      if alive {
        ApplyIcon(msg, gradient);
      }
    }

    /** The battery fields of a "battery" record; false when its `state` is not a string. */
    method ApplyBattery(msg: Data.PartialMsg) returns (alive: bool)
      modifies app`batteryEta, app`batteryRecharging, app`needsRedraw
      ensures alive <==> BatteryStep(old(app.Snapshot()), msg).Some?
      ensures alive ==> app.Snapshot() == BatteryStep(old(app.Snapshot()), msg).value
    {
      if msg.resource == BatteryResource {
        if msg.data.Some? {
          var bat := msg.data.value;
          app.batteryEta := Json.AsF64(Json.Index(bat, "eta"));
          var state := Json.AsStr(Json.Index(bat, "state"));
          if state.None? {
            return false;
          }
          app.batteryRecharging := Recharging(state.value);
          app.RequestRedraw(BatteryResource);
        }
      }
      return true;
    }

    /** The connection flag and the record's icon. */
    method ApplyIcon(msg: Data.PartialMsg, gradient: Gradient)
      modifies app`needsRedraw, app`ratatoskrConnected, app`icons
      ensures app.Snapshot() == IconStep(old(app.Snapshot()), msg, gradient)
    {
      var connected := msg.warning < ConnectedThreshold;
      if app.ratatoskrConnected != connected {
        app.ratatoskrConnected := connected;
        app.RequestRedraw(Data.SelfResource);
      }
      if msg.warning < IconThreshold {
        var existed := app.RemoveIcon(msg.resource);
        if existed {
          app.RequestRedraw(msg.resource);
        }
      } else {
        var icon := Glyph(msg);
        if icon != "" {
          var _ := app.RemoveIcon(msg.resource);
          app.AddIcon(msg.resource, icon, gradient(msg.warning), msg.warning);
          app.RequestRedraw(msg.resource);
        }
      }
    }

    /** One pass over the three queues. */
    method Tick(gradient: Gradient) returns (alive: bool)
      modifies app`notifications, app`notificationIdx, app`needsRedraw, app`batteryEta, app`batteryRecharging
      modifies app`ratatoskrConnected, app`icons, sock.chan, rxCmds, rxNotif
      ensures rxCmds.pending == (if old(rxCmds.pending) == [] then [] else old(rxCmds.pending)[1..])
      ensures sock.chan.pending == (if old(sock.chan.pending) == [] then [] else old(sock.chan.pending)[1..])
      ensures alive ==> rxNotif.pending == (if old(rxNotif.pending) == [] then [] else old(rxNotif.pending)[1..])
      ensures alive <==> TickSpec(old(app.Snapshot()), Head(old(rxCmds.pending)), Head(old(sock.chan.pending)),
                                  Head(old(rxNotif.pending)), gradient).Some?
      ensures alive ==> app.Snapshot() == TickSpec(old(app.Snapshot()), Head(old(rxCmds.pending)),
                                                   Head(old(sock.chan.pending)), Head(old(rxNotif.pending)), gradient).value
    {
      var cmd := rxCmds.TryRecv();
      if cmd.Some? {
        ApplyCommand(cmd.value);
      }
      var msg := sock.chan.TryRecv();
      if msg.Some? {
        alive := ApplyStatus(msg.value, gradient);
        if !alive {
          return;
        }
      }
      var batch := rxNotif.TryRecv();
      if batch.Some? {
        app.notifications := batch.value;
        app.RequestRedraw("notifications");
      }
      alive := true;
    }
  }

  /** The front of a queue. */
  function Head<T>(q: seq<T>): (r: Option<T>)
    ensures r.Some? <==> q != []
    ensures q != [] ==> r.value == q[0]
  {
    if q == [] then None else Some(q[0])
  }
}
