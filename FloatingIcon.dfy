/**
 * The floating icon's state: where it is, how large, whether it is shown,
 * the callbacks for clicks, and the drag in progress. Window creation can
 * fail and is passed in as a flag; the display size is passed in as the
 * outcome of probing the screen. Drawing is not modelled.
 */
module FloatingIcon {
  import opened Text
  import opened Json
  import J = Json
  import opened ConfigManager

  /** What probing the screen gives: its size, or a failure that reads as 1920x1080. */
  datatype Display = Measured(width: int, height: int) | ProbeFailed

  function DisplayWidth(d: Display): int
  {
    if d.Measured? then d.width else 1920
  }

  function DisplayHeight(d: Display): int
  {
    if d.Measured? then d.height else 1080
  }

  function Max(a: int, b: int): int
  {
    if a >= b then a else b
  }

  function Min(a: int, b: int): int
  {
    if a <= b then a else b
  }

  /** One coordinate of `_ensure_position_in_bounds`: at least 0, then at most `limit`. */
  function ClampCoord(v: int, limit: int): (r: int)
    ensures r <= limit
    ensures limit >= 0 ==> 0 <= r
    ensures 0 <= v <= limit ==> r == v
    ensures limit >= 0 ==> forall z :: 0 <= z <= limit ==> Dist(r, v) <= Dist(z, v)
  {
    Min(limit, Max(0, v))
  }

  function Dist(a: int, b: int): nat
  {
    if a >= b then a - b else b - a
  }

  /** `_ensure_position_in_bounds`: the icon's top-left corner kept on screen. */
  function Clamp(p: (int, int), size: int, d: Display): (r: (int, int))
    ensures r.0 == ClampCoord(p.0, DisplayWidth(d) - size)
    ensures r.1 == ClampCoord(p.1, DisplayHeight(d) - size)
  {
    (ClampCoord(p.0, DisplayWidth(d) - size), ClampCoord(p.1, DisplayHeight(d) - size))
  }

  /** An icon that fits on the screen is clamped to a position where all of it is visible. */
  lemma ClampOnScreen(p: (int, int), size: int, d: Display)
    requires 0 <= size <= DisplayWidth(d) && size <= DisplayHeight(d)
    ensures 0 <= Clamp(p, size, d).0 && Clamp(p, size, d).0 + size <= DisplayWidth(d)
    ensures 0 <= Clamp(p, size, d).1 && Clamp(p, size, d).1 + size <= DisplayHeight(d)
  {
  }

  /** Clamping twice is clamping once. */
  lemma ClampIdempotent(p: (int, int), size: int, d: Display)
    ensures Clamp(Clamp(p, size, d), size, d) == Clamp(p, size, d)
  {
  }

  // ---------------------------------------------------------------------
  // Reading the configuration at construction

  /** `int(v) if isinstance(v, (int, float, str)) else default`; `None` is the ValueError. */
  function Coerce(v: Json, default: int): (r: Option<int>)
    ensures !IsNumberOrString(v) ==> r == Some(default)
    ensures IsInt(v) ==> r == Some(IntOf(v))
  {
    if IsNumberOrString(v) then J.PyInt(v) else Some(default)
  }

  /** The configuration holds an `icon_position` mapping with both `x` and `y`. */
  predicate HasPosition(config: map<string, Json>)
  {
    "icon_position" in config && config["icon_position"].JObject?
    && "x" in config["icon_position"].fields && "y" in config["icon_position"].fields
  }

  /** The starting position: the configured one, each coordinate at least 0, or (100, 100). */
  function InitialPosition(config: map<string, Json>): (r: (int, int))
    ensures r.0 >= 0 && r.1 >= 0
    ensures !HasPosition(config) ==> r == (100, 100)
    ensures HasPosition(config) ==>
      var pos := config["icon_position"].fields;
      match (Coerce(pos["x"], 100), Coerce(pos["y"], 100))
      case (Some(x), Some(y)) => r == (Max(0, x), Max(0, y))
      case _ => r == (100, 100)
    ensures HasPosition(config) && IsInt(config["icon_position"].fields["x"]) && IsInt(config["icon_position"].fields["y"]) ==>
      r == (Max(0, IntOf(config["icon_position"].fields["x"])), Max(0, IntOf(config["icon_position"].fields["y"])))
  {
    if HasPosition(config) then
      var pos := config["icon_position"].fields;
      match (Coerce(pos["x"], 100), Coerce(pos["y"], 100))
      case (Some(x), Some(y)) => (Max(0, x), Max(0, y))
      case _ => (100, 100)
    else (100, 100)
  }

  /** The starting size: the configured one but at least 16, or 32. */
  function InitialSize(config: map<string, Json>): (r: int)
    ensures r >= 16
    ensures "icon_size" !in config ==> r == 32
    ensures "icon_size" in config && Coerce(config["icon_size"], 32).Some? ==>
      r == Max(16, Coerce(config["icon_size"], 32).value)
    ensures "icon_size" in config && Coerce(config["icon_size"], 32).None? ==> r == 32
    ensures "icon_size" in config && IsInt(config["icon_size"]) ==> r == Max(16, IntOf(config["icon_size"]))
  {
    if "icon_size" in config then
      match Coerce(config["icon_size"], 32)
      case Some(s) => Max(16, s)
      case None => 32
    else 32
  }

  /** A coordinate `int()` cannot parse puts the icon at (100, 100), whatever the other one is. */
  lemma UnparsablePositionDefault(config: map<string, Json>, y: Json)
    ensures InitialPosition(config["icon_position" := JObject(map["x" := JStr("x"), "y" := y])]) == (100, 100)
  {
    LetterCoordinateUnparsable();
    var c := config["icon_position" := JObject(map["x" := JStr("x"), "y" := y])];
    assert HasPosition(c) && c["icon_position"].fields["x"] == JStr("x");
  }

  /** `int("x")` raises, so a coordinate "x" has no value. */
  lemma LetterCoordinateUnparsable()
    ensures Coerce(JStr("x"), 100) == None
  {
    ParseIntRejectsLetter('x');
    assert "x" == ['x'];
  }

  /** A float size is truncated by `int()` before the minimum of 16 applies. */
  lemma FloatSizeTruncated(config: map<string, Json>)
    ensures InitialSize(config["icon_size" := JFloat(40.75)]) == 40
    ensures InitialSize(config["icon_size" := JFloat(9.5)]) == 16
  {
  }

  /** Without a usable position in the configuration the icon starts at (100, 100). */
  lemma InitialPositionDefault(config: map<string, Json>)
    requires "icon_position" !in config || !config["icon_position"].JObject?
    ensures InitialPosition(config) == (100, 100)
  {
  }

  /** How `_save_position_to_config` stores a position. */
  function PositionJson(p: (int, int)): Json
  {
    JObject(map["x" := JInt(p.0), "y" := JInt(p.1)])
  }

  /** The configuration with the icon's position written into it. */
  function WithPosition(config: map<string, Json>, p: (int, int)): (r: map<string, Json>)
    ensures "icon_position" in r && r["icon_position"] == PositionJson(p)
  {
    config["icon_position" := PositionJson(p)]
  }

  /** A stored position on screen is read back unchanged. */
  lemma SavedPositionReadBack(config: map<string, Json>, p: (int, int))
    requires p.0 >= 0 && p.1 >= 0
    ensures InitialPosition(WithPosition(config, p)) == p
  {
    var pos := PositionJson(p).fields;
    assert pos["x"] == JInt(p.0) && pos["y"] == JInt(p.1);
  }

  /** The live configuration file holds `p` as the icon position. */
  predicate PositionStored(live: Option<StoredFile>, p: (int, int))
  {
    && live.Some? && live.value.content.Parsed? && live.value.content.doc.JObject?
    && "icon_position" in live.value.content.doc.fields
    && live.value.content.doc.fields["icon_position"] == PositionJson(p)
  }

  /** A position stored in the file is the one the next icon starts at. */
  lemma StoredPositionRestored(live: Option<StoredFile>, p: (int, int))
    requires PositionStored(live, p) && p.0 >= 0 && p.1 >= 0
    ensures ViewOf(live.value.content.doc).Loaded?
    ensures InitialPosition(ViewOf(live.value.content.doc).config) == p
  {
    var fields := live.value.content.doc.fields;
    var c := ViewOf(live.value.content.doc).config;
    assert c == fields - {"_metadata"};
    assert c == WithPosition(c, p);
    SavedPositionReadBack(c, p);
  }

  // ---------------------------------------------------------------------
  // The icon

  /** An identifier for a registered callback. */
  datatype Callback = Callback(id: nat)

  /**
   * What `_save_position_to_config` does, from the store before (`live0`,
   * `backups0`) to the store after (`live1`, `backups1`): the save succeeds
   * exactly when the load gives a mapping that, with the position written
   * in, passes the basic check and I/O works; the store is the one the load
   * leaves, followed by the save of that mapping.
   */
  predicate PositionSaved(live0: Option<StoredFile>, backups0: seq<BackupFile>, ioFails: bool,
                          live1: Option<StoredFile>, backups1: seq<BackupFile>,
                          position: (int, int), loadTime: Clock, saveTime: Clock, saved: bool)
    requires UniqueNames(backups0)
  {
    var loaded := LoadedStore(live0, backups0, ioFails, loadTime);
    match LoadedView(live0, backups0, ioFails)
    case Loaded(c) =>
      && (saved <==> BasicValid(WithPosition(c, position)) && !ioFails)
      && (live1, backups1) == SavedStore(loaded.0, loaded.1, WithPosition(c, position), ioFails, saveTime)
    case NotAnObject => !saved && (live1, backups1) == loaded
  }

  class FloatingIcon {
    const store: ConfigStore
    var position: (int, int)
    var size: int
    var visible: bool
    /** Whether a window exists (`self._window`). */
    var hasWindow: bool
    var clickCallback: Option<Callback>
    var rightClickCallback: Option<Callback>
    var hovered: bool
    var dragStartPos: Option<(int, int)>
    var dragStartWindowPos: Option<(int, int)>
    var dragEnabled: bool

    /** Size is positive, only a window can be visible, and a drag records both of its anchors. */
    ghost predicate Valid()
      reads this, store
    {
      && store.Valid()
      && size > 0
      && (visible ==> hasWindow)
      && (dragStartPos.Some? <==> dragStartWindowPos.Some?)
    }

    /** `__init__`, given the mapping `load_config` returned. */
    constructor(store: ConfigStore, config: map<string, Json>)
      requires store.Valid()
      ensures Valid() && this.store == store
      ensures position == InitialPosition(config) && size == InitialSize(config)
      ensures !visible && !hasWindow && clickCallback.None? && rightClickCallback.None?
      ensures dragStartPos.None? && dragEnabled
    {
      this.store := store;
      position := InitialPosition(config);
      size := InitialSize(config);
      visible := false;
      hasWindow := false;
      clickCallback := None;
      rightClickCallback := None;
      hovered := false;
      dragStartPos := None;
      dragStartWindowPos := None;
      dragEnabled := true;
    }

    /** `show`; `createFails` says whether creating the window raises. */
    method Show(createFails: bool) returns (ok: bool)
      requires Valid()
      modifies this
      ensures Valid()
      ensures ok <==> old(hasWindow) || !createFails
      ensures visible == (ok || old(visible)) && hasWindow == ok
      ensures position == old(position) && size == old(size) && dragStartPos == old(dragStartPos)
      ensures dragStartWindowPos == old(dragStartWindowPos) && dragEnabled == old(dragEnabled)
      ensures clickCallback == old(clickCallback) && rightClickCallback == old(rightClickCallback)
      ensures hovered == old(hovered)
    {
      if !hasWindow && !createFails {
        hasWindow := true;
      }
      if hasWindow {
        visible := true;
        return true;
      }
      return false;
    }

    /** `hide` */
    method Hide() returns (ok: bool)
      requires Valid()
      modifies this
      ensures Valid()
      ensures ok <==> hasWindow
      ensures ok ==> !visible
      ensures !ok ==> visible == old(visible)
      ensures hasWindow == old(hasWindow) && position == old(position) && size == old(size)
      ensures dragStartPos == old(dragStartPos)
      ensures dragStartWindowPos == old(dragStartWindowPos) && dragEnabled == old(dragEnabled)
      ensures clickCallback == old(clickCallback) && rightClickCallback == old(rightClickCallback)
      ensures hovered == old(hovered)
    {
      if hasWindow {
        visible := false;
        return true;
      }
      return false;
    }

    /** `update_position`: the clamped position is stored. */
    method UpdatePosition(x: int, y: int, d: Display) returns (ok: bool)
      requires Valid()
      modifies this
      ensures Valid() && ok
      ensures position == Clamp((x, y), size, d)
      ensures size == old(size) && visible == old(visible) && hasWindow == old(hasWindow)
      ensures dragStartPos == old(dragStartPos) && dragStartWindowPos == old(dragStartWindowPos)
      ensures dragEnabled == old(dragEnabled)
      ensures clickCallback == old(clickCallback) && rightClickCallback == old(rightClickCallback)
      ensures hovered == old(hovered)
    {
      position := Clamp((x, y), size, d);
      return true;
    }

    /** `update_size`: a size that is not positive is refused. */
    method UpdateSize(s: int) returns (ok: bool)
      requires Valid()
      modifies this
      ensures Valid()
      ensures ok <==> s > 0
      ensures size == (if s > 0 then s else old(size))
      ensures position == old(position) && visible == old(visible)
      ensures hasWindow == old(hasWindow) && dragEnabled == old(dragEnabled)
      ensures dragStartPos == old(dragStartPos) && dragStartWindowPos == old(dragStartWindowPos)
      ensures clickCallback == old(clickCallback) && rightClickCallback == old(rightClickCallback)
      ensures hovered == old(hovered)
    {
      if s <= 0 {
        return false;
      }
      size := s;
      return true;
    }

    method SetClickCallback(cb: Callback)
      requires Valid()
      modifies this
      ensures Valid() && clickCallback == Some(cb) && rightClickCallback == old(rightClickCallback)
      ensures position == old(position) && size == old(size)
      ensures dragStartPos == old(dragStartPos) && dragStartWindowPos == old(dragStartWindowPos)
      ensures dragEnabled == old(dragEnabled)
      ensures visible == old(visible) && hasWindow == old(hasWindow)
      ensures hovered == old(hovered)
    {
      clickCallback := Some(cb);
    }

    method SetRightClickCallback(cb: Callback)
      requires Valid()
      modifies this
      ensures Valid() && rightClickCallback == Some(cb) && clickCallback == old(clickCallback)
      ensures position == old(position) && size == old(size)
      ensures dragStartPos == old(dragStartPos) && dragStartWindowPos == old(dragStartWindowPos)
      ensures dragEnabled == old(dragEnabled)
      ensures visible == old(visible) && hasWindow == old(hasWindow)
      ensures hovered == old(hovered)
    {
      rightClickCallback := Some(cb);
    }

    /** `_handle_left_click`: the callback invoked, if any. */
    method LeftClick() returns (invoked: Option<Callback>)
      ensures invoked == clickCallback
    {
      invoked := clickCallback;
    }

    /** `_handle_right_click` */
    method RightClick() returns (invoked: Option<Callback>)
      ensures invoked == rightClickCallback
    {
      invoked := rightClickCallback;
    }

    method SetDragEnabled(enabled: bool)
      requires Valid()
      modifies this
      ensures Valid() && dragEnabled == enabled
      ensures position == old(position) && size == old(size) && dragStartPos == old(dragStartPos)
      ensures dragStartWindowPos == old(dragStartWindowPos)
      ensures visible == old(visible) && hasWindow == old(hasWindow)
      ensures clickCallback == old(clickCallback) && rightClickCallback == old(rightClickCallback)
      ensures hovered == old(hovered)
    {
      dragEnabled := enabled;
    }

    /** `_on_drag_start`: record the cursor and the icon position, if dragging is on. */
    method DragStart(px: int, py: int)
      requires Valid()
      modifies this
      ensures Valid() && position == old(position) && size == old(size)
      ensures dragEnabled == old(dragEnabled)
      ensures old(dragEnabled) ==> dragStartPos == Some((px, py)) && dragStartWindowPos == Some(old(position))
      ensures !old(dragEnabled) ==> dragStartPos == old(dragStartPos) && dragStartWindowPos == old(dragStartWindowPos)
      ensures visible == old(visible) && hasWindow == old(hasWindow)
      ensures clickCallback == old(clickCallback) && rightClickCallback == old(rightClickCallback)
      ensures hovered == old(hovered)
    {
      if dragEnabled {
        dragStartPos := Some((px, py));
        dragStartWindowPos := Some(position);
      }
    }

    /** `_on_drag`: the anchor position moved by the cursor's travel, clamped. */
    method Drag(px: int, py: int, d: Display)
      requires Valid()
      modifies this
      ensures Valid() && size == old(size)
      ensures dragStartPos == old(dragStartPos) && dragStartWindowPos == old(dragStartWindowPos)
      ensures dragEnabled == old(dragEnabled)
      ensures !dragEnabled || dragStartPos.None? ==> position == old(position)
      ensures dragEnabled && dragStartPos.Some? ==>
        position == Clamp((dragStartWindowPos.value.0 + px - dragStartPos.value.0,
                           dragStartWindowPos.value.1 + py - dragStartPos.value.1), size, d)
      ensures visible == old(visible) && hasWindow == old(hasWindow)
      ensures clickCallback == old(clickCallback) && rightClickCallback == old(rightClickCallback)
      ensures hovered == old(hovered)
    {
      if !dragEnabled || dragStartPos.None? || dragStartWindowPos.None? {
        return;
      }
      var dx := px - dragStartPos.value.0;
      var dy := py - dragStartPos.value.1;
      var target := (dragStartWindowPos.value.0 + dx, dragStartWindowPos.value.1 + dy);
      var bounded := Clamp(target, size, d);
      ClampIdempotent(target, size, d);
      var _ := UpdatePosition(bounded.0, bounded.1, d);
    }

    /**
     * `_save_position_to_config`: the loaded mapping (or `{}`) with the
     * position written in, saved. A document that is not a mapping makes the
     * load raise, which is swallowed: nothing is saved.
     */
    method SavePositionToConfig(loadTime: Clock, saveTime: Clock) returns (saved: bool)
      requires Valid()
      modifies store
      ensures Valid()
      ensures saved ==> PositionStored(store.live, position)
      ensures PositionSaved(old(store.live), old(store.backups), store.ioFails, store.live, store.backups,
                            position, loadTime, saveTime, saved)
    {
      var loaded := store.LoadConfig(loadTime);
      if loaded.NotAnObject? {
        return false;
      }
      var config := WithPosition(loaded.config, position);
      saved := store.SaveConfig(config, saveTime);
      if saved {
        assert store.live.value.content.doc.fields["icon_position"] == config["icon_position"];
      }
    }

    /** `_on_drag_end`: save the position if a drag started, then forget the drag. */
    method DragEnd(loadTime: Clock, saveTime: Clock) returns (saved: bool)
      requires Valid()
      modifies this, store
      ensures Valid() && dragStartPos.None? && dragStartWindowPos.None?
      ensures (position, size, visible, hasWindow, clickCallback, rightClickCallback, hovered, dragEnabled)
           == old((position, size, visible, hasWindow, clickCallback, rightClickCallback, hovered, dragEnabled))
      ensures old(dragStartPos).None? ==>
        !saved && store.live == old(store.live) && store.backups == old(store.backups)
        && dragStartWindowPos == old(dragStartWindowPos)
      ensures saved ==> PositionStored(store.live, position)
      ensures old(dragStartPos).Some? ==>
        PositionSaved(old(store.live), old(store.backups), store.ioFails, store.live, store.backups,
                      position, loadTime, saveTime, saved)
    {
      if dragStartPos.None? {
        return false;
      }
      saved := SavePositionToConfig(loadTime, saveTime);
      dragStartPos := None;
      dragStartWindowPos := None;
    }
  }

  /** Dragging never moves the icon while dragging is switched off. */
  method DragWhileDisabled(icon: FloatingIcon, sx: int, sy: int, px: int, py: int, d: Display)
    requires icon.Valid() && !icon.dragEnabled
    modifies icon
    ensures icon.position == old(icon.position)
  {
    icon.DragStart(sx, sy);
    icon.Drag(px, py, d);
  }
}
