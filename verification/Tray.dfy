// The gateway's tray menu. A refresh changes the texts of the existing items in
// place when the shape of the menu is unchanged, and rebuilds it otherwise.
module Tray {
  import opened Wrappers
  import opened Text

  datatype Language = ZhCN | En

  datatype ActiveSession = ActiveSession(sessionId: string, workspace: string, title: string)

  datatype Snapshot = Snapshot(
    sessions: seq<ActiveSession>,
    lastWorkspace: Option<string>,
    processDirectory: Option<string>,
    processCount: nat,
    language: Language
  )

  // One row the menu should have; a separator has no id and no label.
  datatype Entry = Entry(id: Option<string>, text: Option<string>, enabled: bool)

  datatype Caption = NoActiveSessions | OpenGui | KillBackgroundProcesses | Quit

  function TrayText(language: Language, caption: Caption): string {
    match (language, caption)
    case (ZhCN, NoActiveSessions) => "无活动会话"
    case (ZhCN, OpenGui) => "打开 GUI"
    case (ZhCN, KillBackgroundProcesses) => "杀死所有后台进程"
    case (ZhCN, Quit) => "退出"
    case (En, NoActiveSessions) => "No active sessions"
    case (En, OpenGui) => "Open GUI"
    case (En, KillBackgroundProcesses) => "Kill all background processes"
    case (En, Quit) => "Quit"
  }

  function ProcessCountLabel(language: Language, count: nat): string {
    match language
    case ZhCN => "后台进程：" + Decimal(count)
    case En => "Background processes: " + Decimal(count)
  }

  function SessionKey(s: ActiveSession): string { "session:" + s.sessionId }

  const SEPARATOR := Entry(None, None, false)

  function SessionEntries(sessions: seq<ActiveSession>): (entries: seq<Entry>)
    ensures |entries| == |sessions|
  {
    seq(|sessions|, i requires 0 <= i < |sessions| => Entry(Some(SessionKey(sessions[i])), Some(sessions[i].title), true))
  }

  function FixedEntries(s: Snapshot): seq<Entry> {
    [ SEPARATOR,
      Entry(Some("action:open-gui"), Some(TrayText(s.language, OpenGui)), true),
      Entry(Some("status:background-processes"), Some(ProcessCountLabel(s.language, s.processCount)), false),
      Entry(Some("action:kill-background-processes"), Some(TrayText(s.language, KillBackgroundProcesses)), s.processCount > 0),
      SEPARATOR,
      Entry(Some("action:quit"), Some(TrayText(s.language, Quit)), true) ]
  }

  // The rows a snapshot calls for.
  function MenuModel(s: Snapshot): seq<Entry> {
    (if s.sessions == [] then [Entry(Some("status:no-active-sessions"), Some(TrayText(s.language, NoActiveSessions)), false)]
     else SessionEntries(s.sessions))
    + FixedEntries(s)
  }

  // The rows of a menu: one per session in order, under its key and title, or
  // one that says there is none; then six fixed rows, of which only the process
  // count is never enabled and ending background processes depends on there
  // being any.
  lemma MenuRows(s: Snapshot)
    ensures var model, n := MenuModel(s), if s.sessions == [] then 1 else |s.sessions|;
      && |model| == n + 6
      && (forall i :: 0 <= i < |s.sessions| ==>
            model[i] == Entry(Some("session:" + s.sessions[i].sessionId), Some(s.sessions[i].title), true))
      && (s.sessions == [] ==> model[0].id == Some("status:no-active-sessions") && !model[0].enabled)
      && model[n].id == None && model[n + 4].id == None
      && model[n + 1].id == Some("action:open-gui") && model[n + 1].enabled
      && model[n + 2].id == Some("status:background-processes") && !model[n + 2].enabled
      && model[n + 3].id == Some("action:kill-background-processes") && (model[n + 3].enabled <==> s.processCount != 0)
      && model[n + 5].id == Some("action:quit") && model[n + 5].enabled
      && (s.language == En ==>
            && (s.sessions == [] ==> model[0].text == Some("No active sessions"))
            && model[n + 1].text == Some("Open GUI")
            && model[n + 2].text == Some("Background processes: " + Decimal(s.processCount))
            && model[n + 3].text == Some("Kill all background processes") && model[n + 5].text == Some("Quit"))
      && (s.language == ZhCN ==>
            && (s.sessions == [] ==> model[0].text == Some("无活动会话"))
            && model[n + 1].text == Some("打开 GUI")
            && model[n + 2].text == Some("后台进程：" + Decimal(s.processCount))
            && model[n + 3].text == Some("杀死所有后台进程") && model[n + 5].text == Some("退出"))
  {
  }

  // Every row is an item with id and label, or a separator with neither.
  predicate WellFormed(model: seq<Entry>) {
    forall i :: 0 <= i < |model| ==> (model[i].id.Some? <==> model[i].text.Some?) && (model[i].id.None? ==> !model[i].enabled)
  }

  lemma MenuModelWellFormed(s: Snapshot)
    ensures WellFormed(MenuModel(s))
  {
    var first := if s.sessions == [] then [Entry(Some("status:no-active-sessions"), Some(TrayText(s.language, NoActiveSessions)), false)]
                 else SessionEntries(s.sessions);
    assert WellFormed(first);
    assert WellFormed(FixedEntries(s));
  }

  function SameStructure(left: seq<Entry>, right: seq<Entry>): bool {
    |left| == |right|
    && forall i :: 0 <= i < |left| ==> left[i].id == right[i].id && left[i].text.Some? == right[i].text.Some?
  }

  // The click table: the last session under each key.
  function SessionActions(sessions: seq<ActiveSession>): (actions: map<string, ActiveSession>)
    ensures actions.Keys == set s | s in sessions :: SessionKey(s)
  {
    if sessions == [] then map[]
    else
      var n := |sessions| - 1;
      assert forall s :: s in sessions <==> s in sessions[..n] || s == sessions[n];
      SessionActions(sessions[..n])[SessionKey(sessions[n]) := sessions[n]]
  }

  // Each key of the table is a session of the list, and no later one has that key.
  lemma {:induction false} ActionsAreLastSessions(sessions: seq<ActiveSession>, i: nat)
    requires i < |sessions|
    ensures SessionKey(sessions[i]) in SessionActions(sessions)
    ensures (forall j :: i < j < |sessions| ==> SessionKey(sessions[j]) != SessionKey(sessions[i])) ==>
              SessionActions(sessions)[SessionKey(sessions[i])] == sessions[i]
  {
    var n := |sessions| - 1;
    if i < n {
      ActionsAreLastSessions(sessions[..n], i);
    }
  }

  // ---------------------------------------------------------------- the menu on screen

  class MenuItem {
    const id: string
    var text: string
    var enabled: bool

    constructor (id: string, text: string, enabled: bool)
      ensures this.id == id && this.text == text && this.enabled == enabled
    {
      this.id := id;
      this.text := text;
      this.enabled := enabled;
    }
  }

  datatype Row = Item(item: MenuItem) | Separator

  class Menu {
    var rows: seq<Row>
    var refusals: nat  // how often the desktop will still refuse to remove a row

    constructor (refusals: nat)
      ensures rows == []
    {
      rows := [];
      this.refusals := refusals;
    }

    // The desktop's menu may refuse a row.
    method Append(row: Row) returns (ok: bool)
      modifies this
      ensures rows == if ok then old(rows) + [row] else old(rows)
    {
      ok := *;
      if ok {
        rows := rows + [row];
      }
    }

    // A refused removal leaves the row where it is.
    method RemoveFirst() returns (ok: bool)
      requires rows != []
      modifies this
      ensures rows == if ok then old(rows)[1..] else old(rows)
      ensures ok ==> refusals == old(refusals)
      ensures !ok ==> refusals + 1 == old(refusals)
    {
      ok := *;
      if ok || refusals == 0 {
        rows := rows[1..];
        ok := true;
      } else {
        refusals := refusals - 1;
      }
    }
  }

  // One row shows exactly one entry.
  ghost predicate Shows(row: Row, entry: Entry)
    reads if row.Item? then {row.item} else {}
  {
    match row
    case Separator => entry == SEPARATOR
    case Item(item) => entry == Entry(Some(item.id), Some(item.text), item.enabled)
  }

  ghost function ItemsOf(rows: seq<Row>): set<MenuItem> {
    set i | 0 <= i < |rows| && rows[i].Item? :: rows[i].item
  }

  // No item stands in two rows.
  ghost predicate DistinctItems(rows: seq<Row>) {
    forall i, j :: 0 <= i < j < |rows| && rows[i].Item? && rows[j].Item? ==> rows[i].item != rows[j].item
  }

  // The menu's rows are the entries of a model, in order, each in full.
  ghost predicate Displays(rows: seq<Row>, model: seq<Entry>)
    reads ItemsOf(rows)
  {
    |rows| == |model| && forall i :: 0 <= i < |rows| ==> Shows(rows[i], model[i])
  }

  // The handle kept for a row: the item itself, or none for a separator.
  function HandleOf(row: Row): Option<MenuItem> {
    if row.Item? then Some(row.item) else None
  }

  function HandlesOf(rows: seq<Row>): (handles: seq<Option<MenuItem>>)
    ensures |handles| == |rows|
  {
    seq(|rows|, i requires 0 <= i < |rows| => HandleOf(rows[i]))
  }

  ghost function HandleItems(items: seq<Option<MenuItem>>): set<MenuItem> {
    set i | 0 <= i < |items| && items[i].Some? :: items[i].value
  }

  // A menu that broke off: it shows only the first rows some snapshot calls for.
  ghost predicate CutOff(rows: seq<Row>)
    reads ItemsOf(rows)
  {
    exists failed: Snapshot :: |rows| < |MenuModel(failed)| && Displays(rows, MenuModel(failed)[..|rows|])
  }

  // No snapshot calls for just the first rows of another: only the last row is Quit.
  lemma CutOffIsNoMenu(failed: Snapshot, s: Snapshot, n: nat)
    requires n < |MenuModel(failed)|
    ensures MenuModel(failed)[..n] != MenuModel(s)
  {
    LastIsQuit(s);
    if n > 0 {
      OnlyLastIsQuit(failed, n - 1);
      assert MenuModel(failed)[..n][n - 1] == MenuModel(failed)[n - 1];
    }
  }

  lemma LastIsQuit(s: Snapshot)
    ensures MenuModel(s)[|MenuModel(s)| - 1].id == Some("action:quit")
  {
    assert MenuModel(s)[|MenuModel(s)| - 1] == FixedEntries(s)[5];
  }

  lemma OnlyLastIsQuit(s: Snapshot, k: nat)
    requires k < |MenuModel(s)| - 1
    ensures MenuModel(s)[k].id != Some("action:quit")
  {
    var sessions := |MenuModel(s)| - 6;
    if k < sessions {
      assert MenuModel(s)[k].id.value[0] == 's';
    } else {
      assert MenuModel(s)[k] == FixedEntries(s)[k - sessions];
    }
  }

  // Two models a menu displays are the same model.
  lemma DisplaysOne(rows: seq<Row>, a: seq<Entry>, b: seq<Entry>)
    requires Displays(rows, a) && Displays(rows, b)
    ensures a == b
  {
    assert forall i :: 0 <= i < |rows| ==> Shows(rows[i], a[i]) && Shows(rows[i], b[i]);
  }

  class TrayState {
    const menu: Menu
    var model: seq<Entry>
    var items: seq<Option<MenuItem>>
    var snapshot: Snapshot
    var actions: map<string, ActiveSession>

    // The screen shows the current snapshot exactly as a rebuild would, and the
    // handles are the items of its rows.
    ghost predicate Shown()
      reads this, menu, ItemsOf(menu.rows)
    {
      items == HandlesOf(menu.rows) && Displays(menu.rows, MenuModel(snapshot))
    }

    // What always holds between refreshes: the books describe one snapshot, and
    // the screen either shows it or broke off during a refused rebuild.
    ghost predicate Valid()
      reads this, menu, ItemsOf(menu.rows)
    {
      && DistinctItems(menu.rows)
      && model == MenuModel(snapshot) && |items| == |model|
      && actions == SessionActions(snapshot.sessions)
      && (Shown() || (CutOff(menu.rows) && HandleItems(items) !! ItemsOf(menu.rows)))
    }

    ghost function Footprint(): set<object>
      reads this, menu
    {
      {this, menu} + ItemsOf(menu.rows) + HandleItems(items)
    }

    // Builds the menu from nothing; no handles are kept when the desktop
    // refused a row.
    constructor (menu: Menu, snapshot: Snapshot)
      requires menu.rows == []
      modifies menu
      ensures this.menu == menu && fresh(ItemsOf(menu.rows) + HandleItems(items))
      ensures items != [] ==> Valid() && Shown() && this.snapshot == snapshot
    {
      this.menu := menu;
      this.snapshot := snapshot;
      this.model := [];
      this.items := [];
      this.actions := map[];
      new;
      MenuModelWellFormed(snapshot);
      var ok, built := ReplaceMenu(MenuModel(snapshot));
      if ok {
        this.model := MenuModel(snapshot);
        this.items := built;
        this.actions := SessionActions(snapshot.sessions);
        assert forall k :: 0 <= k < |items| && items[k].Some? ==> menu.rows[k] == Item(items[k].value);
      }
      assert HandleItems(items) <= ItemsOf(menu.rows);
    }

    // Makes the row of one entry and appends it.
    method AppendEntry(entry: Entry) returns (ok: bool, row: Row)
      requires WellFormed([entry])
      modifies menu
      ensures menu.rows == if ok then old(menu.rows) + [row] else old(menu.rows)
      ensures Shows(row, entry) && (row.Item? ==> fresh(row.item))
    {
      assert [entry][0] == entry;
      row := Separator;
      if entry.id.Some? {
        var item := new MenuItem(entry.id.value, entry.text.value, entry.enabled);
        row := Item(item);
      }
      ok := menu.Append(row);
    }

    // Clears the menu, however often the desktop refuses a removal before it
    // gives in, and appends one row per entry, stopping at the first refusal.
    method ReplaceMenu(model: seq<Entry>) returns (ok: bool, built: seq<Option<MenuItem>>)
      requires WellFormed(model)
      modifies menu
      ensures fresh(ItemsOf(menu.rows)) && DistinctItems(menu.rows)
      ensures ok ==> built == HandlesOf(menu.rows) && Displays(menu.rows, model)
      ensures !ok ==> |menu.rows| < |model| && Displays(menu.rows, model[..|menu.rows|])
    {
      while menu.rows != []
        decreases |menu.rows| + menu.refusals
      {
        var _ := menu.RemoveFirst();
      }
      built := [];
      for i := 0 to |model|
        invariant |menu.rows| == i == |built|
        invariant forall k :: 0 <= k < i && menu.rows[k].Item? ==> fresh(menu.rows[k].item)
        invariant DistinctItems(menu.rows)
        invariant forall k :: 0 <= k < i ==> built[k] == HandleOf(menu.rows[k]) && Shows(menu.rows[k], model[k])
      {
        var row;
        ok, row := AppendEntry(model[i]);
        if !ok {
          return;
        }
        built := built + [HandleOf(row)];
      }
      ok := true;
    }

    // Rewrites texts and enabled flags that differ, on the items of the handles.
    method UpdateMenuItems(newModel: seq<Entry>)
      requires WellFormed(newModel) && WellFormed(model) && SameStructure(model, newModel) && |items| == |model|
      requires DistinctItems(menu.rows)
      modifies HandleItems(items), `model
      ensures model == newModel
      ensures old(items == HandlesOf(menu.rows) && Displays(menu.rows, model)) ==> Displays(menu.rows, newModel)
    {
      ghost var rows := menu.rows;
      ghost var shown := items == HandlesOf(menu.rows) && Displays(menu.rows, model);
      for i := 0 to |model|
        invariant model == old(model)
        invariant shown ==> forall k :: 0 <= k < i ==> Shows(rows[k], newModel[k])
        invariant shown ==> forall k :: i <= k < |rows| ==> Shows(rows[k], model[k])
      {
        if items[i].Some? {
          var item := items[i].value;
          assert shown ==> rows[i] == Item(item);
          if model[i].text != newModel[i].text && newModel[i].text.Some? {
            item.text := newModel[i].text.value;
          }
          if model[i].enabled != newModel[i].enabled {
            item.enabled := newModel[i].enabled;
          }
        }
      }
      model := newModel;
    }

    // Takes over the latest snapshot. Afterwards the screen is that of a
    // rebuild from it if and only if it was right before or the shape of the
    // menu changed and so forced a rebuild. When the desktop refuses a row,
    // the books keep describing the old snapshot and the screen is cut off.
    method Refresh(latest: Snapshot) returns (ok: bool)
      requires Valid()
      modifies Footprint()
      ensures Valid()
      ensures ok ==> snapshot == latest
      ensures ok ==> (Shown() <==> old(Shown()) || !SameStructure(old(model), MenuModel(latest)))
      ensures !ok ==> !Shown() && snapshot == old(snapshot) && !SameStructure(model, MenuModel(latest))
      ensures fresh(Footprint() - old(Footprint()))
    {
      if SnapshotsEqual(snapshot, latest) {
        return true;
      }
      MenuModelWellFormed(snapshot);
      MenuModelWellFormed(latest);
      if SameStructure(model, MenuModel(latest)) {
        RefreshInPlace(latest);
        ok := true;
      } else {
        ok := RefreshByRebuild(latest);
      }
    }

    method RefreshInPlace(latest: Snapshot)
      requires Valid() && SameStructure(model, MenuModel(latest))
      requires WellFormed(model) && WellFormed(MenuModel(latest))
      modifies Footprint()
      ensures Valid() && snapshot == latest && (Shown() <==> old(Shown()))
      ensures menu.rows == old(menu.rows) && items == old(items)
    {
      ghost var wasShown := Shown();
      ghost var rows := menu.rows;
      UpdateMenuItems(MenuModel(latest));
      snapshot := latest;
      actions := SessionActions(latest.sessions);
      if !wasShown {
        CutOffIsNotShown();
      }
    }

    lemma CutOffIsNotShown()
      requires CutOff(menu.rows)
      ensures !Shown()
    {
      var failed: Snapshot :| |menu.rows| < |MenuModel(failed)| && Displays(menu.rows, MenuModel(failed)[..|menu.rows|]);
      CutOffIsNoMenu(failed, snapshot, |menu.rows|);
      if Shown() {
        DisplaysOne(menu.rows, MenuModel(failed)[..|menu.rows|], MenuModel(snapshot));
      }
    }

    method RefreshByRebuild(latest: Snapshot) returns (ok: bool)
      requires Valid() && WellFormed(MenuModel(latest))
      modifies this, menu
      ensures Valid() && (ok <==> Shown())
      ensures snapshot == if ok then latest else old(snapshot)
      ensures fresh(Footprint() - old(Footprint()))
    {
      var built;
      ok, built := ReplaceMenu(MenuModel(latest));
      if ok {
        model := MenuModel(latest);
        items := built;
        snapshot := latest;
        actions := SessionActions(latest.sessions);
      } else {
        assert CutOff(menu.rows);
        CutOffIsNotShown();
      }
    }
  }

  // The field-by-field comparison that lets a refresh return early.
  predicate SnapshotsEqual(left: Snapshot, right: Snapshot)
    ensures SnapshotsEqual(left, right) <==> left == right
  {
    && left.lastWorkspace == right.lastWorkspace
    && left.processDirectory == right.processDirectory
    && left.processCount == right.processCount
    && left.language == right.language
    && |left.sessions| == |right.sessions|
    && forall i :: 0 <= i < |left.sessions| ==>
         && left.sessions[i].sessionId == right.sessions[i].sessionId
         && left.sessions[i].workspace == right.sessions[i].workspace
         && left.sessions[i].title == right.sessions[i].title
  }

  // Any number of refreshes, none refused: the screen is the latest snapshot's,
  // and the click table answers for exactly its sessions.
  method RefreshAll(state: TrayState, snapshots: seq<Snapshot>) returns (ok: bool)
    requires state.Valid() && state.Shown()
    modifies state.Footprint()
    ensures state.Valid() && (ok <==> state.Shown())
    ensures ok && snapshots != [] ==>
      && Displays(state.menu.rows, MenuModel(snapshots[|snapshots| - 1]))
      && state.actions.Keys == set s | s in snapshots[|snapshots| - 1].sessions :: SessionKey(s)
  {
    ok := true;
    for i := 0 to |snapshots|
      invariant state.Valid() && state.Shown() && (i > 0 ==> state.snapshot == snapshots[i - 1])
      invariant fresh(state.Footprint() - old(state.Footprint()))
    {
      ok := state.Refresh(snapshots[i]);
      if !ok {
        return;
      }
    }
  }

  // A refused rebuild is not repaired by going back: the old snapshot is what
  // the books still hold, so the next refresh with it returns at once and the
  // screen stays cut off.
  method RefusedThenBack(state: TrayState, latest: Snapshot) returns (refused: bool)
    requires state.Valid()
    modifies state.Footprint()
    ensures refused ==> state.snapshot == old(state.snapshot) && !state.Shown()
  {
    var before := state.snapshot;
    var ok := state.Refresh(latest);
    refused := !ok;
    if refused {
      ok := state.Refresh(before);
    }
  }
}
