/**
 * The tray icon: its menu, kept as a list that is edited in place, its
 * visibility, and the manager that creates, starts and stops it. Whether
 * the tray library is installed is a constant given to each object; drawing
 * the icon and running it on its own thread are not modelled.
 */
module SystemTray {
  import opened Text

  /** What a menu item does when chosen. */
  datatype MenuAction = NoAction | OpenSettings | Quit | Custom(id: nat)

  /** `TrayMenuItem` */
  datatype TrayMenuItem = TrayMenuItem(title: string, action: MenuAction, checked: bool, enabled: bool, separator: bool)

  const ExitTitle: string := "終了"

  function Item(title: string, action: MenuAction): TrayMenuItem
  {
    TrayMenuItem(title, action, false, true, false)
  }

  /** `_init_default_menu` */
  function DefaultMenu(): (r: seq<TrayMenuItem>)
    ensures |r| == 3 && r[0].title == "設定" && r[1].separator && r[2].title == ExitTitle
  {
    [Item("設定", OpenSettings), TrayMenuItem("", NoAction, false, true, true), Item(ExitTitle, Quit)]
  }

  /** `add_menu_item`: just before a trailing exit item, otherwise at the end. */
  function InsertItem(items: seq<TrayMenuItem>, item: TrayMenuItem): (r: seq<TrayMenuItem>)
    ensures |r| == |items| + 1
    ensures |items| > 0 && items[|items| - 1].title == ExitTitle ==>
      r == items[..|items| - 1] + [item] + [items[|items| - 1]]
    ensures !(|items| > 0 && items[|items| - 1].title == ExitTitle) ==> r == items + [item]
  {
    if |items| > 0 && items[|items| - 1].title == ExitTitle then
      items[..|items| - 1] + [item] + [items[|items| - 1]]
    else items + [item]
  }

  /** Inserting keeps the exit item last and every other item in its order. */
  lemma InsertKeepsOrder(items: seq<TrayMenuItem>, item: TrayMenuItem, k: nat)
    requires |items| > 0 && items[|items| - 1].title == ExitTitle
    ensures InsertItem(items, item)[|items|] == items[|items| - 1]
    ensures InsertItem(items, item)[|items| - 1] == item
    ensures k < |items| - 1 ==> InsertItem(items, item)[k] == items[k]
  {
  }

  /** The first item with the given title. */
  function FirstTitled(items: seq<TrayMenuItem>, title: string): (r: Option<nat>)
    ensures r.Some? ==> r.value < |items| && items[r.value].title == title
    ensures r.Some? ==> forall j :: 0 <= j < r.value ==> items[j].title != title
    ensures r.None? ==> forall j :: 0 <= j < |items| ==> items[j].title != title
  {
    if |items| == 0 then None
    else if items[0].title == title then Some(0)
    else
      var rest := FirstTitled(items[1..], title);
      assert forall j :: 1 <= j < |items| ==> items[j] == items[1..][j - 1];
      match rest
      case None => None
      case Some(k) => Some(k + 1)
  }

  /** `remove_menu_item` on the list: the first item with the title goes. */
  function RemoveFirst(items: seq<TrayMenuItem>, title: string): (r: seq<TrayMenuItem>)
    ensures FirstTitled(items, title).None? ==> r == items
    ensures FirstTitled(items, title).Some? ==>
      var i := FirstTitled(items, title).value; r == items[..i] + items[i + 1..]
  {
    match FirstTitled(items, title)
    case None => items
    case Some(i) => items[..i] + items[i + 1..]
  }

  /** Adding an item under a new title and removing that title gives the menu back. */
  lemma AddThenRemove(items: seq<TrayMenuItem>, item: TrayMenuItem)
    requires forall j :: 0 <= j < |items| ==> items[j].title != item.title
    ensures RemoveFirst(InsertItem(items, item), item.title) == items
  {
    var r := InsertItem(items, item);
    if |items| > 0 && items[|items| - 1].title == ExitTitle {
      var n := |items| - 1;
      assert r[n] == item;
      assert forall j :: 0 <= j < n ==> r[j] == items[j];
      assert FirstTitled(r, item.title) == Some(n);
      assert r[..n] + r[n + 1..] == items;
    } else {
      assert forall j :: 0 <= j < |items| ==> r[j] == items[j];
      assert r[|items|] == item;
      assert FirstTitled(r, item.title) == Some(|items|);
      assert r[..|items|] == items;
    }
  }

  /** An identifier for a registered callback. */
  datatype Callback = Callback(id: nat)

  /** What choosing the exit item does. */
  datatype ExitOutcome = RunCallback(cb: Callback) | DefaultExit

  /** `SystemTray` */
  class SystemTray {
    const available: bool
    const appName: string
    var menu: seq<TrayMenuItem>
    var callbacks: map<string, Callback>
    var visible: bool
    /** Whether an icon object exists (`self._icon`). */
    var hasIcon: bool
    /** How many icon objects have been created so far. */
    var iconsCreated: nat

    /** Only an existing icon of an installed tray library can be visible. */
    ghost predicate Valid()
      reads this
    {
      visible ==> available && hasIcon
    }

    constructor(appName: string, available: bool)
      ensures Valid()
      ensures this.appName == appName && this.available == available
      ensures menu == DefaultMenu() && callbacks == map[] && !visible && !hasIcon && iconsCreated == 0
    {
      this.appName := appName;
      this.available := available;
      menu := DefaultMenu();
      callbacks := map[];
      visible := false;
      hasIcon := false;
      iconsCreated := 0;
    }

    /**
     * `show`; `fails` says whether creating the icon raises. An icon that is
     * already visible is not created again.
     */
    method Show(fails: bool) returns (ok: bool)
      requires Valid()
      modifies this
      ensures Valid()
      ensures menu == old(menu) && callbacks == old(callbacks)
      ensures !available ==> !ok && visible == old(visible) && iconsCreated == old(iconsCreated) && hasIcon == old(hasIcon)
      ensures available && old(visible) ==> ok && visible && iconsCreated == old(iconsCreated) && hasIcon == old(hasIcon)
      ensures available && !old(visible) && fails ==>
        !ok && !visible && iconsCreated == old(iconsCreated) && hasIcon == old(hasIcon)
      ensures available && !old(visible) && !fails ==> ok && visible && hasIcon && iconsCreated == old(iconsCreated) + 1
      ensures ok <==> visible
    {
      if !available {
        return false;
      }
      if visible {
        return true;
      }
      if fails {
        return false;
      }
      hasIcon := true;
      iconsCreated := iconsCreated + 1;
      visible := true;
      return true;
    }

    /** `hide` */
    method Hide()
      requires Valid()
      modifies this
      ensures Valid()
      ensures !visible
      ensures menu == old(menu) && callbacks == old(callbacks) && hasIcon == old(hasIcon) && iconsCreated == old(iconsCreated)
    {
      visible := false;
    }

    /** `update_menu`: a visible icon is hidden and shown again to pick up the new menu. */
    method UpdateMenu(items: seq<TrayMenuItem>, showFails: bool)
      requires Valid()
      modifies this
      ensures Valid()
      ensures menu == items && callbacks == old(callbacks) && hasIcon == old(hasIcon)
      ensures !(old(hasIcon) && old(visible)) ==> visible == old(visible) && iconsCreated == old(iconsCreated)
      ensures old(hasIcon) && old(visible) ==>
        (visible <==> !showFails) && iconsCreated == old(iconsCreated) + (if showFails then 0 else 1)
    {
      menu := items;
      if hasIcon && visible {
        Hide();
        var _ := Show(showFails);
      }
    }

    method AddMenuItem(item: TrayMenuItem)
      requires Valid()
      modifies this
      ensures Valid()
      ensures menu == InsertItem(old(menu), item)
      ensures callbacks == old(callbacks) && visible == old(visible) && hasIcon == old(hasIcon)
      ensures iconsCreated == old(iconsCreated)
    {
      if |menu| > 0 && menu[|menu| - 1].title == ExitTitle {
        menu := menu[..|menu| - 1] + [item] + [menu[|menu| - 1]];
      } else {
        menu := menu + [item];
      }
    }

    /** `remove_menu_item`: the scan stops at the first item with the title. */
    method RemoveMenuItem(title: string) returns (removed: bool)
      requires Valid()
      modifies this
      ensures Valid()
      ensures removed <==> FirstTitled(old(menu), title).Some?
      ensures menu == RemoveFirst(old(menu), title)
      ensures callbacks == old(callbacks) && visible == old(visible) && hasIcon == old(hasIcon)
      ensures iconsCreated == old(iconsCreated)
    {
      for i := 0 to |menu|
        invariant menu == old(menu)
        invariant forall j :: 0 <= j < i ==> menu[j].title != title
      {
        if menu[i].title == title {
          menu := menu[..i] + menu[i + 1..];
          return true;
        }
      }
      return false;
    }

    /** `set_callback` */
    method SetCallback(event: string, cb: Callback)
      requires Valid()
      modifies this
      ensures Valid()
      ensures callbacks == old(callbacks)[event := cb]
      ensures menu == old(menu) && visible == old(visible) && hasIcon == old(hasIcon)
      ensures iconsCreated == old(iconsCreated)
    {
      callbacks := callbacks[event := cb];
    }

    /** `_on_settings`: the callback that gets scheduled, if one is registered. */
    method OnSettings() returns (scheduled: Option<Callback>)
      ensures "settings" in callbacks ==> scheduled == Some(callbacks["settings"])
      ensures "settings" !in callbacks ==> scheduled.None?
    {
      if "settings" in callbacks {
        return Some(callbacks["settings"]);
      }
      return None;
    }

    /** `_on_exit`: the registered callback, or hiding the tray and leaving. */
    method OnExit() returns (outcome: ExitOutcome)
      requires Valid()
      modifies this
      ensures Valid()
      ensures "exit" in callbacks ==> outcome == RunCallback(callbacks["exit"]) && visible == old(visible)
      ensures "exit" !in callbacks ==> outcome == DefaultExit && !visible
      ensures menu == old(menu) && callbacks == old(callbacks) && hasIcon == old(hasIcon)
      ensures iconsCreated == old(iconsCreated)
    {
      if "exit" in callbacks {
        return RunCallback(callbacks["exit"]);
      }
      Hide();
      return DefaultExit;
    }
  }

  /** `get_status`; `running` is `None` while no tray exists, as `is_running` returns. */
  datatype TrayStatus = TrayStatus(available: bool, enabled: bool, running: Option<bool>, appName: string)

  /** `SystemTrayManager`: a tray once initialised, and whether the tray is wanted. */
  class SystemTrayManager {
    const available: bool
    const appName: string
    var tray: SystemTray?
    var enabled: bool

    ghost predicate Valid()
      reads this, tray
    {
      tray != null ==> tray.Valid() && tray.available == available
    }

    constructor(appName: string, available: bool)
      ensures Valid()
      ensures this.appName == appName && this.available == available && tray == null && enabled
    {
      this.appName := appName;
      this.available := available;
      tray := null;
      enabled := true;
    }

    /** `initialize`: a fresh tray, unless the tray library is missing. */
    method Initialize() returns (ok: bool)
      requires Valid()
      modifies this
      ensures Valid()
      ensures ok <==> available
      ensures enabled == old(enabled)
      ensures ok ==> fresh(tray) && tray.menu == DefaultMenu() && !tray.visible && tray.available
      ensures ok ==> tray.appName == appName && tray.callbacks == map[] && !tray.hasIcon && tray.iconsCreated == 0
      ensures !ok ==> tray == old(tray)
    {
      if !available {
        return false;
      }
      tray := new SystemTray(appName, available);
      return true;
    }

    /**
     * `is_running`: `self._tray and self._tray.is_visible()`. A tray object is
     * always truthy, so the result is `None` without a tray and the tray's
     * visibility with one.
     */
    function IsRunning(): (r: Option<bool>)
      reads this, tray
      ensures r.None? <==> tray == null
      ensures r.Some? ==> r.value == tray.visible
    {
      if tray == null then None else Some(tray.visible)
    }

    /** `is_running()` is truthy: a tray exists and is visible. */
    predicate Running()
      reads this, tray
    {
      IsRunning() == Some(true)
    }

    /** `start`: only an enabled, initialised manager shows its tray. */
    method Start(showFails: bool) returns (ok: bool)
      requires Valid()
      modifies tray
      ensures Valid()
      ensures !enabled || tray == null ==> !ok
      ensures tray != null ==> tray.menu == old(tray.menu) && tray.callbacks == old(tray.callbacks)
      ensures tray != null ==> tray.hasIcon == (old(tray.hasIcon) || ok)
      ensures tray != null && !ok ==> tray.visible == old(tray.visible) && tray.iconsCreated == old(tray.iconsCreated)
      ensures enabled && tray != null ==>
        (ok <==> tray.available && (old(tray.visible) || !showFails)) && (ok <==> Running())
    {
      if !enabled || tray == null {
        return false;
      }
      ok := tray.Show(showFails);
    }

    /** `stop` */
    method Stop()
      requires Valid()
      modifies tray
      ensures Valid()
      ensures !Running()
      ensures tray != null ==> tray.menu == old(tray.menu) && tray.callbacks == old(tray.callbacks)
      ensures tray != null ==> tray.hasIcon == old(tray.hasIcon) && tray.iconsCreated == old(tray.iconsCreated)
    {
      if tray != null {
        tray.Hide();
      }
    }

    /** `set_enabled`: store the flag, then stop or start an initialised tray. */
    method SetEnabled(flag: bool, showFails: bool)
      requires Valid()
      modifies this, tray
      ensures Valid()
      ensures enabled == flag && tray == old(tray)
      ensures tray == null ==> !Running()
      ensures tray != null && !flag ==> !Running()
      ensures tray != null && flag ==> (Running() <==> tray.available && (old(tray.visible) || !showFails))
      ensures tray != null ==> tray.menu == old(tray.menu) && tray.callbacks == old(tray.callbacks)
      ensures tray != null ==> tray.hasIcon == (old(tray.hasIcon) || Running())
    {
      enabled := flag;
      if !flag && tray != null {
        Stop();
      } else if flag && tray != null {
        var _ := Start(showFails);
      }
    }

    /** `add_menu_item`: a plain item, given to the tray if there is one. */
    method AddMenuItem(title: string, action: MenuAction)
      requires Valid()
      modifies tray
      ensures Valid()
      ensures tray != null ==> tray.menu == InsertItem(old(tray.menu), Item(title, action))
      ensures tray != null ==> tray.callbacks == old(tray.callbacks) && tray.visible == old(tray.visible)
      ensures tray != null ==> tray.hasIcon == old(tray.hasIcon) && tray.iconsCreated == old(tray.iconsCreated)
    {
      if tray != null {
        tray.AddMenuItem(Item(title, action));
      }
    }

    /** `get_status` */
    method GetStatus() returns (status: TrayStatus)
      ensures status == TrayStatus(available, enabled, IsRunning(), appName)
      ensures tray == null ==> status.running == None
      ensures tray != null ==> status.running == Some(tray.visible)
    {
      var running := if tray == null then None else Some(tray.visible);
      status := TrayStatus(available, enabled, running, appName);
    }
  }

  /** A manager that has not been initialised reports `running` as `None`. */
  method StatusBeforeInitialize(appName: string, available: bool) returns (status: TrayStatus)
    ensures status == TrayStatus(available, true, None, appName)
  {
    var manager := new SystemTrayManager(appName, available);
    status := manager.GetStatus();
  }
}
