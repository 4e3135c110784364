/** The extension's settings object: target language, connection profile,
    the list of prompt presets with the selected one, the code-block filter
    switch, the auto-translate mode and the response token budget; how the
    stored settings are completed on load, and how the preset buttons edit
    the list. */
module Config {
  import opened Common
  import PromptBuilder
  import AutoTrigger

  datatype Preset = Preset(name: string, prompt: string)

  /** The settings as values. A field the stored settings lack reads as the
      empty string, `false` or index -1: each of them is falsy, or selects
      no preset, exactly as the missing field would. */
  datatype Config = Config(
    targetLanguage: string,
    profileId: string,
    selectedPresetIndex: int,
    presets: seq<Preset>,
    filterCodeBlock: bool,
    autoMode: string,
    maxTokens: int)

  const DefaultMaxTokens: int := 1024

  const DefaultPresets: seq<Preset> := [Preset("Default", PromptBuilder.DefaultPromptTemplate)]

  const Defaults: Config :=
    Config("English", "", 0, DefaultPresets, false, AutoTrigger.ModeNone, DefaultMaxTokens)

  /** `promptPresets[selectedPresetIndex]`: undefined outside the list. */
  function SelectedPreset(c: Config): (r: Option<Preset>)
    ensures r.Some? <==> 0 <= c.selectedPresetIndex < |c.presets|
    ensures r.Some? ==> r.value == c.presets[c.selectedPresetIndex]
  {
    if 0 <= c.selectedPresetIndex < |c.presets| then Some(c.presets[c.selectedPresetIndex]) else None
  }

  /** The list is not empty and the selection points into it. */
  predicate Valid(c: Config) {
    |c.presets| >= 1 && 0 <= c.selectedPresetIndex < |c.presets|
  }

  /** `splice(i, 1)`: the list without its element at `i`. */
  function RemoveAt<T>(s: seq<T>, i: nat): (r: seq<T>)
    requires i < |s|
    ensures |r| == |s| - 1
    ensures forall j :: 0 <= j < i ==> r[j] == s[j]
    ensures forall j :: i <= j < |r| ==> r[j] == s[j + 1]
    ensures multiset(r) + multiset{s[i]} == multiset(s)
  {
    assert s == s[..i] + [s[i]] + s[i + 1..];
    s[..i] + s[i + 1..]
  }

  // ---------------------------------------------------------------------
  // Loading

  /** The stored settings object: each known field present or not, and
      whether the object carries keys this model does not know. */
  datatype Stored = Stored(
    targetLanguage: Option<string>,
    profileId: Option<string>,
    selectedPresetIndex: Option<int>,
    presets: Option<seq<Preset>>,
    filterCodeBlock: Option<bool>,
    autoMode: Option<string>,
    maxTokens: Option<int>,
    otherKeys: bool)

  const NothingStored: Stored := Stored(None, None, None, None, None, None, None, false)

  /** No key at all. */
  predicate IsEmptyObject(s: Stored) {
    s == NothingStored
  }

  function GetOr<T>(o: Option<T>, absent: T): T {
    if o.Some? then o.value else absent
  }

  /** `loadSettings`: an empty object takes all the defaults; then a missing
      preset list is replaced by the default one with the first preset
      selected, and a missing or empty mode and a missing or zero token
      budget take their defaults. An empty preset list is truthy and kept. */
  function LoadSettings(s: Stored): (c: Config)
    ensures IsEmptyObject(s) ==> c == Defaults
    ensures c.presets == (if s.presets.Some? then s.presets.value else DefaultPresets)
    ensures s.presets.None? ==> c.selectedPresetIndex == 0
    ensures s.presets.Some? && s.selectedPresetIndex.Some? ==> c.selectedPresetIndex == s.selectedPresetIndex.value
    ensures s.presets.Some? && s.selectedPresetIndex.None? ==> SelectedPreset(c).None?
    ensures s.autoMode.Some? && s.autoMode.value != "" ==> c.autoMode == s.autoMode.value
    ensures s.autoMode.None? || s.autoMode.value == "" ==> c.autoMode == AutoTrigger.ModeNone
    ensures s.maxTokens.Some? && s.maxTokens.value != 0 ==> c.maxTokens == s.maxTokens.value
    ensures s.maxTokens.None? || s.maxTokens.value == 0 ==> c.maxTokens == 1024
    ensures s.filterCodeBlock.Some? ==> c.filterCodeBlock == s.filterCodeBlock.value
    ensures s.filterCodeBlock.None? ==> !c.filterCodeBlock
    ensures s.targetLanguage.Some? ==> c.targetLanguage == s.targetLanguage.value
    ensures s.profileId.Some? ==> c.profileId == s.profileId.value
    ensures !IsEmptyObject(s) && s.targetLanguage.None? ==> c.targetLanguage == ""
    ensures s.profileId.None? ==> c.profileId == ""
  {
    if IsEmptyObject(s) then Defaults
    else
      var presets := if s.presets.Some? then s.presets.value else DefaultPresets;
      var index := if s.presets.Some? then GetOr(s.selectedPresetIndex, -1) else 0;
      var mode := GetOr(s.autoMode, "");
      var tokens := GetOr(s.maxTokens, 0);
      Config(
        GetOr(s.targetLanguage, ""),
        GetOr(s.profileId, ""),
        index,
        presets,
        GetOr(s.filterCodeBlock, false),
        if mode == "" then AutoTrigger.ModeNone else mode,
        if tokens == 0 then DefaultMaxTokens else tokens)
  }

  /** Loading what was loaded changes nothing. */
  lemma LoadIdempotent(s: Stored)
    ensures var c := LoadSettings(s);
      LoadSettings(Stored(Some(c.targetLanguage), Some(c.profileId), Some(c.selectedPresetIndex),
                  Some(c.presets), Some(c.filterCodeBlock), Some(c.autoMode), Some(c.maxTokens),
                  s.otherKeys)) == c
  {
  }

  /** Whatever was stored, the settings after loading select a preset as
      long as the stored list was missing, or was kept with a valid
      selection. */
  lemma LoadValid(s: Stored)
    requires s.presets.None? || (|s.presets.value| >= 1 && s.selectedPresetIndex.Some?
                                 && 0 <= s.selectedPresetIndex.value < |s.presets.value|)
    ensures Valid(LoadSettings(s))
  {
  }

  // ---------------------------------------------------------------------
  // Preset editing

  /** `onNewPreset`: an empty or cancelled name does nothing; otherwise a
      preset with the default prompt is appended and selected. */
  function AddPreset(c: Config, name: string): (r: Config)
    ensures name == "" ==> r == c
    ensures name != "" ==>
      && r.presets == c.presets + [Preset(name, PromptBuilder.DefaultPromptTemplate)]
      && r.selectedPresetIndex == |c.presets|
      && SelectedPreset(r) == Some(Preset(name, PromptBuilder.DefaultPromptTemplate))
      && Valid(r)
      && r == c.(presets := r.presets, selectedPresetIndex := r.selectedPresetIndex)
  {
    if name == "" then c
    else
      var presets := c.presets + [Preset(name, PromptBuilder.DefaultPromptTemplate)];
      c.(presets := presets, selectedPresetIndex := |presets| - 1)
  }

  /** `onRenamePreset`: without a selected preset the handler fails before
      asking; an empty or cancelled name does nothing; otherwise only the
      selected preset's name changes. */
  function RenameSelected(c: Config, name: string): (r: Config)
    ensures SelectedPreset(c).None? || name == "" ==> r == c
    ensures SelectedPreset(c).Some? && name != "" ==>
      && |r.presets| == |c.presets|
      && SelectedPreset(r) == Some(SelectedPreset(c).value.(name := name))
      && (forall j :: 0 <= j < |c.presets| && j != c.selectedPresetIndex ==> r.presets[j] == c.presets[j])
      && r == c.(presets := r.presets)
  {
    match SelectedPreset(c)
    case None => c
    case Some(p) =>
      if name == "" then c
      else c.(presets := c.presets[c.selectedPresetIndex := p.(name := name)])
  }

  /** `onPromptChange`: the selected preset's prompt becomes the edited
      text; without a selected preset the handler fails and nothing
      changes. */
  function EditSelectedPrompt(c: Config, value: string): (r: Config)
    ensures SelectedPreset(c).None? ==> r == c
    ensures SelectedPreset(c).Some? ==>
      && |r.presets| == |c.presets|
      && SelectedPreset(r) == Some(SelectedPreset(c).value.(prompt := value))
      && (forall j :: 0 <= j < |c.presets| && j != c.selectedPresetIndex ==> r.presets[j] == c.presets[j])
      && r == c.(presets := r.presets)
  {
    match SelectedPreset(c)
    case None => c
    case Some(p) => c.(presets := c.presets[c.selectedPresetIndex := p.(prompt := value)])
  }

  datatype DeleteOutcome =
    | LastPreset    // the warning: the only preset cannot be deleted
    | NoSelection   // the confirmation text cannot be built without a preset
    | Cancelled     // the user did not confirm
    | Deleted

  /** `onDeletePreset`. */
  function DeleteOutcomeOf(c: Config, confirmed: bool): (o: DeleteOutcome)
    ensures o == LastPreset <==> |c.presets| <= 1
    ensures o == Deleted <==> |c.presets| > 1 && SelectedPreset(c).Some? && confirmed
  {
    if |c.presets| <= 1 then LastPreset
    else if SelectedPreset(c).None? then NoSelection
    else if !confirmed then Cancelled
    else Deleted
  }

  /** Deleting removes the selected preset and selects the one before it, or
      the first; every other outcome leaves the settings as they were. */
  function DeleteSelected(c: Config, confirmed: bool): (r: Config)
    ensures DeleteOutcomeOf(c, confirmed) != Deleted ==> r == c
    ensures DeleteOutcomeOf(c, confirmed) == Deleted ==>
      && r.presets == RemoveAt(c.presets, c.selectedPresetIndex)
      && multiset(r.presets) + multiset{c.presets[c.selectedPresetIndex]} == multiset(c.presets)
      && r.selectedPresetIndex == (if c.selectedPresetIndex == 0 then 0 else c.selectedPresetIndex - 1)
      && Valid(r)
      && r == c.(presets := r.presets, selectedPresetIndex := r.selectedPresetIndex)
  {
    if DeleteOutcomeOf(c, confirmed) == Deleted then
      var i := c.selectedPresetIndex;
      c.(presets := RemoveAt(c.presets, i), selectedPresetIndex := if i - 1 > 0 then i - 1 else 0)
    else c
  }

  /** `onPresetChange`: the parsed dropdown value is stored as it is. */
  function SelectIndex(c: Config, index: int): (r: Config)
    ensures r.selectedPresetIndex == index && r.presets == c.presets
    ensures r == c.(selectedPresetIndex := r.selectedPresetIndex)
    ensures 0 <= index < |c.presets| ==> SelectedPreset(r) == Some(c.presets[index])
  {
    c.(selectedPresetIndex := index)
  }

  /** `onMaxTokensChange`: an unparsable or zero value falls back to 1024. */
  function WithMaxTokens(c: Config, parsed: Option<int>): (r: Config)
    ensures parsed.None? || parsed.value == 0 ==> r.maxTokens == 1024
    ensures parsed.Some? && parsed.value != 0 ==> r.maxTokens == parsed.value
    ensures r == c.(maxTokens := r.maxTokens)
  {
    c.(maxTokens := if parsed.None? || parsed.value == 0 then DefaultMaxTokens else parsed.value)
  }

  /** The edits the preset controls make. */
  datatype PresetEdit =
    | NewPreset(name: string)
    | RenamePreset(newName: string)
    | DeletePreset(confirmed: bool)
    | EditPrompt(value: string)
    | SelectPreset(index: int)

  function ApplyEdit(c: Config, e: PresetEdit): Config {
    match e
    case NewPreset(name) => AddPreset(c, name)
    case RenamePreset(name) => RenameSelected(c, name)
    case DeletePreset(confirmed) => DeleteSelected(c, confirmed)
    case EditPrompt(value) => EditSelectedPrompt(c, value)
    case SelectPreset(index) => SelectIndex(c, index)
  }

  function ApplyEdits(c: Config, edits: seq<PresetEdit>): Config
    decreases |edits|
  {
    if edits == [] then c else ApplyEdits(ApplyEdit(c, edits[0]), edits[1..])
  }

  /** The list of presets never becomes empty: deleting the last one is
      refused, and no other edit shortens the list. */
  lemma {:induction false} PresetsNeverEmpty(c: Config, edits: seq<PresetEdit>)
    requires |c.presets| >= 1
    ensures |ApplyEdits(c, edits).presets| >= 1
    decreases |edits|
  {
    if edits != [] {
      var d := ApplyEdit(c, edits[0]);
      assert |d.presets| >= 1 by {
        match edits[0]
        case DeletePreset(confirmed) =>
          if DeleteOutcomeOf(c, confirmed) == Deleted { assert |c.presets| > 1; }
        case _ =>
      }
      PresetsNeverEmpty(d, edits[1..]);
    }
  }

  /** An edit that selects an existing preset. */
  predicate SelectsWithin(c: Config, e: PresetEdit) {
    e.SelectPreset? ==> 0 <= e.index < |c.presets|
  }

  /** Every edit keeps a valid selection valid, as long as a selection made
      from the dropdown names an existing preset. */
  lemma ValidAfterEdit(c: Config, e: PresetEdit)
    requires Valid(c) && SelectsWithin(c, e)
    ensures Valid(ApplyEdit(c, e))
  {
  }

  // ---------------------------------------------------------------------
  // The settings object

  /** The live settings object the handlers read and update in place. */
  class Settings {
    var targetLanguage: string
    var profileId: string
    var selectedPresetIndex: int
    var presets: seq<Preset>
    var filterCodeBlock: bool
    var autoMode: string
    var maxTokens: int

    function Snapshot(): (c: Config)
      reads this
      ensures c.presets == presets && c.selectedPresetIndex == selectedPresetIndex
    {
      Config(targetLanguage, profileId, selectedPresetIndex, presets, filterCodeBlock, autoMode, maxTokens)
    }

    /** The settings as `loadSettings` leaves them. */
    constructor Load(stored: Stored)
      ensures Snapshot() == LoadSettings(stored)
    {
      var c := LoadSettings(stored);
      targetLanguage := c.targetLanguage;
      profileId := c.profileId;
      selectedPresetIndex := c.selectedPresetIndex;
      presets := c.presets;
      filterCodeBlock := c.filterCodeBlock;
      autoMode := c.autoMode;
      maxTokens := c.maxTokens;
    }

    /** `onLanguageChange`. */
    method SetLanguage(value: string)
      modifies this
      ensures Snapshot() == old(Snapshot()).(targetLanguage := value)
    {
      targetLanguage := value;
    }

    /** `onProfileChange`: a missing profile id is stored as empty. */
    method SetProfile(id: Option<string>)
      modifies this
      ensures Snapshot() == old(Snapshot()).(profileId := GetOr(id, ""))
    {
      profileId := GetOr(id, "");
    }

    /** `onFilterCodeBlockChange`. */
    method SetFilterCodeBlock(checked: bool)
      modifies this
      ensures Snapshot() == old(Snapshot()).(filterCodeBlock := checked)
    {
      filterCodeBlock := checked;
    }

    /** `onAutoModeChange`. */
    method SetAutoMode(value: string)
      modifies this
      ensures Snapshot() == old(Snapshot()).(autoMode := value)
    {
      autoMode := value;
    }

    /** `onMaxTokensChange`. */
    method SetMaxTokens(parsed: Option<int>)
      modifies this
      ensures Snapshot() == WithMaxTokens(old(Snapshot()), parsed)
      ensures maxTokens != 0
    {
      maxTokens := if parsed.None? || parsed.value == 0 then DefaultMaxTokens else parsed.value;
    }

    /** `onPresetChange`. */
    method SelectPreset(index: int)
      modifies this
      ensures Snapshot() == SelectIndex(old(Snapshot()), index)
    {
      selectedPresetIndex := index;
    }

    /** `onPromptChange`. */
    method EditPrompt(value: string)
      modifies this
      ensures Snapshot() == EditSelectedPrompt(old(Snapshot()), value)
      ensures old(Valid(Snapshot())) ==> Valid(Snapshot())
    {
      if 0 <= selectedPresetIndex < |presets| {
        presets := presets[selectedPresetIndex := presets[selectedPresetIndex].(prompt := value)];
      }
    }

    /** `onNewPreset`, given the name the user typed ("" when cancelled). */
    method NewPreset(name: string)
      modifies this
      ensures Snapshot() == AddPreset(old(Snapshot()), name)
      ensures name != "" ==> Valid(Snapshot())
    {
      if name != "" {
        presets := presets + [Preset(name, PromptBuilder.DefaultPromptTemplate)];
        selectedPresetIndex := |presets| - 1;
      }
    }

    /** `onRenamePreset`, given the name the user typed ("" when
        cancelled). */
    method RenamePreset(name: string)
      modifies this
      ensures Snapshot() == RenameSelected(old(Snapshot()), name)
      ensures old(Valid(Snapshot())) ==> Valid(Snapshot())
    {
      if 0 <= selectedPresetIndex < |presets| && name != "" {
        presets := presets[selectedPresetIndex := presets[selectedPresetIndex].(name := name)];
      }
    }

    /** `onDeletePreset`, given the user's answer to the confirmation. */
    method DeletePreset(confirmed: bool) returns (outcome: DeleteOutcome)
      modifies this
      ensures outcome == DeleteOutcomeOf(old(Snapshot()), confirmed)
      ensures Snapshot() == DeleteSelected(old(Snapshot()), confirmed)
      ensures old(|presets|) >= 1 ==> |presets| >= 1
      ensures old(Valid(Snapshot())) ==> Valid(Snapshot())
    {
      if |presets| <= 1 {
        return LastPreset;
      }
      if !(0 <= selectedPresetIndex < |presets|) {
        return NoSelection;
      }
      if !confirmed {
        return Cancelled;
      }
      presets := RemoveAt(presets, selectedPresetIndex);
      selectedPresetIndex := if selectedPresetIndex - 1 > 0 then selectedPresetIndex - 1 else 0;
      outcome := Deleted;
    }
  }
}
