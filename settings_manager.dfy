/**
 * The shared settings helper of the `src/` plugins. A plugin's settings
 * panel is a list of settings and categories of settings; the manager
 * flattens it into a map of defaults, lays loaded values over them, keeps a
 * live map of current values and mirrors every value back into the panel
 * entry with the same id.
 */
module SharedSettings {
  import opened Lists

  /** A panel entry that holds a value. */
  datatype Setting<V> = Setting(id: string, value: V)

  /** An entry of the panel: a setting, or a category (`type: "category"`) holding settings one level down. */
  datatype PanelEntry<V> = Item(setting: Setting<V>) | Category(id: string, settings: seq<Setting<V>>)

  /** What `flatMap` makes of one entry: a category contributes its settings, a setting itself. */
  function EntryLeaves<V>(e: PanelEntry<V>): seq<Setting<V>>
  {
    match e
    case Item(s) => [s]
    case Category(_, ss) => ss
  }

  /** The panel flattened one level, in order. */
  function Leaves<V>(panel: seq<PanelEntry<V>>): seq<Setting<V>>
    decreases |panel|
  {
    if panel == [] then [] else EntryLeaves(panel[0]) + Leaves(panel[1..])
  }

  /** The ids of a list of settings, in order. */
  function Ids<V>(ls: seq<Setting<V>>): (r: seq<string>)
    ensures |r| == |ls|
  {
    seq(|ls|, i requires 0 <= i < |ls| => ls[i].id)
  }

  /** The panel with every value forgotten: its shape and its ids. */
  function Erase<V>(panel: seq<PanelEntry<V>>): seq<PanelEntry<()>>
    decreases |panel|
  {
    if panel == [] then [] else [EraseEntry(panel[0])] + Erase(panel[1..])
  }

  function EraseEntry<V>(e: PanelEntry<V>): PanelEntry<()>
  {
    match e
    case Item(s) => Item(Setting(s.id, ()))
    case Category(cid, ss) => Category(cid, seq(|ss|, i requires 0 <= i < |ss| => Setting(ss[i].id, ())))
  }

  /** `Object.fromEntries` over the flattened settings: a later entry with the same id overwrites an earlier one. */
  function FromEntries<V>(ls: seq<Setting<V>>): (m: map<string, V>)
    ensures m.Keys == set i | 0 <= i < |ls| :: ls[i].id
    ensures forall i :: 0 <= i < |ls| && (forall j :: i < j < |ls| ==> ls[j].id != ls[i].id) ==> m[ls[i].id] == ls[i].value
    decreases |ls|
  {
    if ls == [] then map[]
    else
      var front := ls[..|ls| - 1];
      var last := ls[|ls| - 1];
      assert forall i :: 0 <= i < |ls| - 1 ==> ls[i] == front[i];
      FromEntries(front)[last.id := last.value]
  }

  /** The defaults of a panel: `id -> value` for every top-level setting and every setting of a category. */
  function Defaults<V>(panel: seq<PanelEntry<V>>): (r: map<string, V>)
    ensures forall i, s :: 0 <= i < |panel| && s in EntryLeaves(panel[i]) ==> s.id in r
  {
    var ls := Leaves(panel);
    assert forall i, s :: 0 <= i < |panel| && s in EntryLeaves(panel[i]) ==> s.id in FromEntries(ls) by {
      LeavesContents(panel);
      forall i, s | 0 <= i < |panel| && s in EntryLeaves(panel[i])
        ensures s.id in FromEntries(ls)
      {
        assert s in Leaves(panel);
        var j :| 0 <= j < |ls| && ls[j] == s;
      }
    }
    FromEntries(ls)
  }

  /** The first setting with id `id` in a flat list gets `value`; no such setting, no change. */
  function UpdateLeaves<V>(ls: seq<Setting<V>>, id: string, value: V): (r: seq<Setting<V>>)
    ensures Ids(r) == Ids(ls)
    ensures id in Ids(ls) ==> r[IndexOf(Ids(ls), id)] == Setting(id, value)
    ensures forall j :: 0 <= j < |ls| && j != IndexOf(Ids(ls), id) ==> r[j] == ls[j]
  {
    var k := IndexOf(Ids(ls), id);
    if k < 0 then ls else ls[k := Setting(id, value)]
  }

  /**
   * `updateSettingsPanel` as a function on the panel: the first entry of the
   * flattened panel with id `id` takes `value`.
   */
  function UpdatePanel<V>(panel: seq<PanelEntry<V>>, id: string, value: V): (r: seq<PanelEntry<V>>)
    ensures Erase(r) == Erase(panel)
    ensures Leaves(r) == UpdateLeaves(Leaves(panel), id, value)
    ensures id !in Ids(Leaves(panel)) ==> r == panel
    decreases |panel|
  {
    if panel == [] then []
    else
      var rest := panel[1..];
      LeavesCons(panel);
      match panel[0]
      case Item(s) =>
        if s.id == id then
          var r := [Item(Setting(id, value))] + rest;
          LeavesCons(r);
          UpdateLeavesAppend([s], Leaves(rest), id, value);
          r
        else
          var r := [panel[0]] + UpdatePanel(rest, id, value);
          LeavesCons(r);
          UpdateLeavesAppend([s], Leaves(rest), id, value);
          assert r[1..] == UpdatePanel(rest, id, value);
          r
      case Category(cid, ss) =>
        if id in Ids(ss) then
          var r := [Category(cid, UpdateLeaves(ss, id, value))] + rest;
          LeavesCons(r);
          UpdateLeavesAppend(ss, Leaves(rest), id, value);
          assert EraseEntry(r[0]) == EraseEntry(panel[0]);
          r
        else
          var r := [panel[0]] + UpdatePanel(rest, id, value);
          LeavesCons(r);
          UpdateLeavesAppend(ss, Leaves(rest), id, value);
          assert r[1..] == UpdatePanel(rest, id, value);
          r
  }

  /** Unfolding `Leaves` and `Erase` on a non-empty panel. */
  lemma LeavesCons<V>(panel: seq<PanelEntry<V>>)
    ensures panel != [] ==> Leaves(panel) == EntryLeaves(panel[0]) + Leaves(panel[1..])
    ensures panel != [] ==> Erase(panel) == [EraseEntry(panel[0])] + Erase(panel[1..])
    ensures panel != [] ==> Ids(Leaves(panel)) == Ids(EntryLeaves(panel[0])) + Ids(Leaves(panel[1..]))
  {
    if panel != [] {
      IdsAppend(EntryLeaves(panel[0]), Leaves(panel[1..]));
    }
  }

  /** The ids of a concatenation are the ids of its parts, in order. */
  lemma IdsAppend<V>(a: seq<Setting<V>>, b: seq<Setting<V>>)
    ensures Ids(a + b) == Ids(a) + Ids(b)
  {
  }

  /** Updating the first match of a concatenation updates the front part when the id is there, else the back part. */
  lemma UpdateLeavesAppend<V>(a: seq<Setting<V>>, b: seq<Setting<V>>, id: string, value: V)
    ensures UpdateLeaves(a + b, id, value) ==
      if id in Ids(a) then UpdateLeaves(a, id, value) + b else a + UpdateLeaves(b, id, value)
  {
    IdsAppend(a, b);
    IndexOfAppend(Ids(a), Ids(b), id);
    if id in Ids(a) {
      UpdateFront(a, b, IndexOf(Ids(a), id), Setting(id, value));
    } else if id in Ids(b) {
      UpdateBack(a, b, IndexOf(Ids(b), id), Setting(id, value));
    }
  }

  /** The settings of `ls` after a sync of the keys `done`: the first entry for each such key holds its value. */
  function SyncedLeaves<V>(ls: seq<Setting<V>>, settings: map<string, V>, done: set<string>): (r: seq<Setting<V>>)
    requires done <= settings.Keys
    ensures |r| == |ls| && Ids(r) == Ids(ls)
  {
    seq(|ls|, j requires 0 <= j < |ls| =>
      if ls[j].id in done && IndexOf(Ids(ls), ls[j].id) == j then Setting(ls[j].id, settings[ls[j].id]) else ls[j])
  }

  /** The panel is `before` with the keys `done` synced: same shape and ids, and the values `SyncedLeaves` gives. */
  ghost predicate SyncedFrom<V>(panel: seq<PanelEntry<V>>, before: seq<PanelEntry<V>>, settings: map<string, V>, done: set<string>)
    requires done <= settings.Keys
  {
    Erase(panel) == Erase(before) && Leaves(panel) == SyncedLeaves(Leaves(before), settings, done)
  }

  /** The entry `updateSettingsPanel` would find for each key of `settings` holds that key's value. */
  ghost predicate PanelShows<V>(panel: seq<PanelEntry<V>>, settings: map<string, V>)
  {
    var ls := Leaves(panel);
    forall id :: id in settings && id in Ids(ls) ==> ls[IndexOf(Ids(ls), id)].value == settings[id]
  }

  /** Syncing one more key is updating the panel with that key's value. */
  lemma SyncStep<V>(ls: seq<Setting<V>>, settings: map<string, V>, done: set<string>, key: string)
    requires done <= settings.Keys && key in settings && key !in done
    ensures UpdateLeaves(SyncedLeaves(ls, settings, done), key, settings[key]) == SyncedLeaves(ls, settings, done + {key})
  {
    var before := SyncedLeaves(ls, settings, done);
    var after := SyncedLeaves(ls, settings, done + {key});
    var r := UpdateLeaves(before, key, settings[key]);
    var k := IndexOf(Ids(ls), key);
    assert |r| == |after|;
    forall j | 0 <= j < |r|
      ensures r[j] == after[j]
    {
      if j == k {
        assert ls[j].id == key;
      }
    }
  }

  /**
   * After a full sync, the first entry with a given key holds that key's
   * value, entries whose id is not a key keep their value, and the panel
   * shows every setting.
   */
  lemma SyncedShows<V>(panel: seq<PanelEntry<V>>, before: seq<PanelEntry<V>>, settings: map<string, V>)
    requires SyncedFrom(panel, before, settings, settings.Keys)
    ensures PanelShows(panel, settings)
    ensures var ls, ls0 := Leaves(panel), Leaves(before);
      forall j :: 0 <= j < |ls0| && ls0[j].id !in settings ==> ls[j] == ls0[j]
  {
    var ls, ls0 := Leaves(panel), Leaves(before);
    forall id | id in settings && id in Ids(ls)
      ensures ls[IndexOf(Ids(ls), id)].value == settings[id]
    {
      assert Ids(ls) == Ids(ls0);
      var k := IndexOf(Ids(ls0), id);
      assert ls0[k].id == id;
    }
  }

  /** When the panel's ids are distinct, a synced panel shows each key's value in every entry with that id. */
  lemma SyncedDistinct<V>(panel: seq<PanelEntry<V>>, before: seq<PanelEntry<V>>, settings: map<string, V>, j: int)
    requires SyncedFrom(panel, before, settings, settings.Keys)
    requires Distinct(Ids(Leaves(before)))
    requires 0 <= j < |Leaves(before)| && Leaves(before)[j].id in settings
    ensures Leaves(panel)[j] == Setting(Leaves(before)[j].id, settings[Leaves(before)[j].id])
  {
    var ids := Ids(Leaves(before));
    var k := IndexOf(ids, ids[j]);
    assert ids[k] == ids[j];
  }

  /** The flattened panel holds every setting of every entry, and nothing else. */
  lemma {:induction false} LeavesContents<V>(panel: seq<PanelEntry<V>>)
    ensures forall i, s :: 0 <= i < |panel| && s in EntryLeaves(panel[i]) ==> s in Leaves(panel)
    ensures forall s :: s in Leaves(panel) ==> exists i :: 0 <= i < |panel| && s in EntryLeaves(panel[i])
    decreases |panel|
  {
    if panel != [] {
      var tail := panel[1..];
      LeavesContents(tail);
      assert Leaves(panel) == EntryLeaves(panel[0]) + Leaves(tail);
      assert forall i :: 1 <= i < |panel| ==> panel[i] == tail[i - 1];
      forall s | s in Leaves(panel)
        ensures exists i :: 0 <= i < |panel| && s in EntryLeaves(panel[i])
      {
        if s !in EntryLeaves(panel[0]) {
          var i :| 0 <= i < |tail| && s in EntryLeaves(tail[i]);
          assert s in EntryLeaves(panel[i + 1]);
        }
      }
    }
  }

  /** An id is among the flattened panel's ids exactly when some entry of the panel contributes it. */
  lemma {:induction false} LeavesIds<V>(panel: seq<PanelEntry<V>>, id: string)
    ensures id in Ids(Leaves(panel)) <==> exists i :: 0 <= i < |panel| && id in Ids(EntryLeaves(panel[i]))
    decreases |panel|
  {
    if panel != [] {
      LeavesCons(panel);
      var tail := panel[1..];
      LeavesIds(tail, id);
      if id in Ids(Leaves(tail)) {
        var i :| 0 <= i < |tail| && id in Ids(EntryLeaves(tail[i]));
        assert panel[i + 1] == tail[i];
      }
      if exists i :: 0 <= i < |panel| && id in Ids(EntryLeaves(panel[i])) {
        var i :| 0 <= i < |panel| && id in Ids(EntryLeaves(panel[i]));
        if i > 0 {
          assert tail[i - 1] == panel[i];
        }
      }
    }
  }

  /** The defaults hold an entry for every top-level setting and for every setting inside a category, and nothing else. */
  lemma DefaultsKeys<V>(panel: seq<PanelEntry<V>>, id: string)
    ensures id in Defaults(panel) <==> exists i :: 0 <= i < |panel| && id in Ids(EntryLeaves(panel[i]))
  {
    var ls := Leaves(panel);
    LeavesIds(panel, id);
    if id in Defaults(panel) {
      var j :| 0 <= j < |ls| && ls[j].id == id;
      assert Ids(ls)[j] == id;
    }
    if id in Ids(ls) {
      var j :| 0 <= j < |ls| && Ids(ls)[j] == id;
      assert ls[j].id == id;
    }
  }

  /** With distinct ids, the default of every setting of the panel is its own value. */
  lemma DefaultsValues<V>(panel: seq<PanelEntry<V>>, j: int)
    requires Distinct(Ids(Leaves(panel)))
    requires 0 <= j < |Leaves(panel)|
    ensures Defaults(panel)[Leaves(panel)[j].id] == Leaves(panel)[j].value
  {
    var ls := Leaves(panel);
    assert forall i :: j < i < |ls| ==> ls[i].id != ls[j].id by {
      forall i | j < i < |ls|
        ensures ls[i].id != ls[j].id
      {
        assert Ids(ls)[i] != Ids(ls)[j];
      }
    }
  }

  /** The settings manager of one plugin. */
  class SettingsManager<V> {
    const pluginName: string
    var settingsPanel: seq<PanelEntry<V>>
    var defaultSettings: map<string, V>
    var settings: map<string, V>
    /** How many times the settings were written to the host's storage. */
    ghost var saves: nat

    /** Every default has a current value, and the panel shows every current value. */
    ghost predicate Valid()
      reads this
    {
      defaultSettings.Keys <= settings.Keys && PanelShows(settingsPanel, settings)
    }

    /**
     * Defaults from the panel, loaded values laid over them, and the panel
     * synced with the result. `loaded` stands for what the host's storage
     * returns (an empty map when it has nothing).
     */
    constructor(pluginName: string, config: seq<PanelEntry<V>>, loaded: map<string, V>)
      ensures Valid() && saves == 0
      ensures this.pluginName == pluginName
      ensures defaultSettings == Defaults(config)
      ensures settings == Defaults(config) + loaded
      ensures SyncedFrom(settingsPanel, config, settings, settings.Keys)
    {
      this.pluginName := pluginName;
      settingsPanel := config;
      defaultSettings := Defaults(config);
      settings := Defaults(config) + loaded;
      saves := 0;
      new;
      SyncSettingsPanel();
      SyncedShows(settingsPanel, config, settings);
    }

    /** For every key of `settings`, `updateSettingsPanel(key, settings[key])`. */
    method SyncSettingsPanel()
      modifies this`settingsPanel
      ensures SyncedFrom(settingsPanel, old(settingsPanel), settings, settings.Keys)
    {
      ghost var before := settingsPanel;
      var pending := settings.Keys;
      assert SyncedLeaves(Leaves(before), settings, {}) == Leaves(before);
      while pending != {}
        invariant pending <= settings.Keys
        invariant SyncedFrom(settingsPanel, before, settings, settings.Keys - pending)
        decreases pending
      {
        var key :| key in pending;
        SyncStep(Leaves(before), settings, settings.Keys - pending, key);
        UpdateSettingsPanel(key, settings[key]);
        assert settings.Keys - (pending - {key}) == (settings.Keys - pending) + {key};
        pending := pending - {key};
      }
    }

    /** The entry with this id, if the panel has one, takes the value. */
    method UpdateSettingsPanel(id: string, value: V)
      modifies this`settingsPanel
      ensures settingsPanel == UpdatePanel(old(settingsPanel), id, value)
    {
      settingsPanel := UpdatePanel(settingsPanel, id, value);
    }

    /** `settings[key]`, `undefined` for a key that has no value. */
    function Get(key: string): (r: Option<V>)
      reads this
      ensures r.Some? <==> key in settings
      ensures r.Some? ==> r.value == settings[key]
    {
      Lookup(settings, key)
    }

    /** Sets one value, saves, and mirrors the value into the panel. */
    method Set(key: string, value: V)
      requires Valid()
      modifies this`settings, this`settingsPanel, this`saves
      ensures Valid()
      ensures Get(key) == Some(value)
      ensures forall k :: k != key ==> Get(k) == old(Get(k))
      ensures settings == old(settings)[key := value] && saves == old(saves) + 1
      ensures settingsPanel == UpdatePanel(old(settingsPanel), key, value)
    {
      settings := settings[key := value];
      saves := saves + 1;
      UpdateSettingsPanel(key, value);
      SetKeepsShown(old(settingsPanel), old(settings), key, value);
    }
  }

  /** Setting a key and updating the panel with it keeps every current value shown in the panel. */
  lemma SetKeepsShown<V>(panel: seq<PanelEntry<V>>, settings: map<string, V>, key: string, value: V)
    requires PanelShows(panel, settings)
    ensures PanelShows(UpdatePanel(panel, key, value), settings[key := value])
  {
    var ls := Leaves(panel);
    var ls' := Leaves(UpdatePanel(panel, key, value));
    var settings' := settings[key := value];
    assert Ids(ls') == Ids(ls) by {
      assert |ls'| == |ls|;
    }
    forall id | id in settings' && id in Ids(ls')
      ensures ls'[IndexOf(Ids(ls'), id)].value == settings'[id]
    {
    }
  }
}
