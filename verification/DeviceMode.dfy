/**
 * Device-mode requests: resolving one, checking it against the guest, and keeping a
 * cumulative record of the settings that were applied.
 */
module DeviceMode {
  import opened Prelude
  import opened Text
  import opened Names

  datatype Setting = Yes | No

  /** What a caller asks for. */
  datatype Options = Options(mode: Option<string>, enable: Option<seq<string>>, disable: Option<seq<string>>)

  datatype Resolved = Skip | Selection(mode: Option<string>, features: map<string, Setting>)

  const SKIP_VALUES: set<string> := {"skip", "none", "off", "disabled"}

  const KNOWN_MODES: set<string> := {"home", "advanced", "basic", "rose"}

  const KNOWN_FEATURES: set<string> := {
    "scheduler", "socks", "fetch", "pptp", "l2tp", "bandwidth-test", "traffic-gen", "sniffer", "ipsec", "romon",
    "proxy", "hotspot", "smb", "email", "zerotier", "container", "install-any-version", "partitions", "routerboard"
  }

  datatype Warning =
    | ListsIgnored
    | LegacyMode
    | UnknownMode(mode: string)
    | OnBothLists(feature: string)
    | UnknownEnabled(feature: string)
    | UnknownDisabled(feature: string)

  // ---- Records ---------------------------------------------------------------------------

  /** Assigning to a property of a record object: the key `__proto__` never becomes one. */
  function Assign<V>(record: map<string, V>, key: string, value: V): map<string, V> {
    if key == "__proto__" then record else record[key := value]
  }

  function Items(list: Option<seq<string>>): seq<string> {
    if list.Some? then list.value else []
  }

  function NormalizedPieces(pieces: seq<string>): (names: seq<string>)
    ensures forall n :: n in names <==> exists p :: p in pieces && Norm(p) == n && n != ""
  {
    if pieces == [] then []
    else
      assert pieces == [pieces[0]] + pieces[1..];
      (if Norm(pieces[0]) != "" then [Norm(pieces[0])] else []) + NormalizedPieces(pieces[1..])
  }

  function NormalizeFeatureList(list: Option<seq<string>>): (names: seq<string>)
    ensures forall n :: n in names <==> n in NamesIn(Items(list))
  {
    Distinct(NormalizedPieces(Pieces(Items(list))))
  }

  // ---- Resolving -------------------------------------------------------------------------

  /** The mode a normalised request stands for. */
  function ModeFor(requested: string): string {
    if requested == "enterprise" then "advanced" else if requested == "auto" then "rose" else requested
  }

  /** A feature on both lists is disabled. */
  function Features(enable: set<string>, disable: set<string>): map<string, Setting> {
    map name | name in enable + disable && name != "__proto__" :: if name in disable then No else Yes
  }

  function Resolve(options: Option<Options>): Resolved {
    match options
    case None => Skip
    case Some(o) =>
      var requested := Norm(if o.mode.Some? then o.mode.value else "auto");
      if requested in SKIP_VALUES then Skip
      else Selection(Some(ModeFor(requested)), Features(NamesIn(Items(o.enable)), NamesIn(Items(o.disable))))
  }

  predicate Skips(o: Options) {
    Norm(if o.mode.Some? then o.mode.value else "auto") in SKIP_VALUES
  }

  /** What a request is warned about. */
  predicate Warns(o: Options, w: Warning) {
    var requested := Norm(if o.mode.Some? then o.mode.value else "auto");
    var enable, disable := NamesIn(Items(o.enable)), NamesIn(Items(o.disable));
    if Skips(o) then w.ListsIgnored? && (Items(o.enable) != [] || Items(o.disable) != [])
    else
      match w
      case ListsIgnored => false
      case LegacyMode => requested == "enterprise"
      case UnknownMode(mode) => mode == ModeFor(requested) && mode !in KNOWN_MODES
      case OnBothLists(f) => f in enable && f in disable
      case UnknownEnabled(f) => f in enable && f !in disable && f !in KNOWN_FEATURES
      case UnknownDisabled(f) => f in disable && f !in KNOWN_FEATURES
  }

  method ResolveDeviceModeOptions(options: Option<Options>) returns (resolved: Resolved, warnings: seq<Warning>)
    ensures resolved == Resolve(options)
    ensures forall w :: w in warnings <==> options.Some? && Warns(options.value, w)
  {
    if options.None? {
      return Skip, [];
    }
    var o := options.value;
    if Skips(o) {
      warnings := if Items(o.enable) != [] || Items(o.disable) != [] then [ListsIgnored] else [];
      return Skip, warnings;
    }
    var mode, modeWarnings := ResolveMode(Norm(if o.mode.Some? then o.mode.value else "auto"));
    var enableList := NormalizeFeatureList(o.enable);
    var disableList := NormalizeFeatureList(o.disable);
    var enable, conflicts := WithoutConflicting(enableList, disableList);
    var features, unknown := FeatureRecord(enable, disableList);
    ElementsOfList(o.enable);
    ElementsOfList(o.disable);
    DisableWins(NamesIn(Items(o.enable)), NamesIn(Items(o.disable)));
    WarningsOf(o, mode, modeWarnings, enableList, disableList, enable, conflicts, unknown);
    return Selection(Some(mode), features), modeWarnings + conflicts + unknown;
  }

  /** The warnings of the parts are those of the request. */
  lemma WarningsOf(o: Options, mode: string, modeWarnings: seq<Warning>, enableList: seq<string>, disableList: seq<string>,
                   enable: seq<string>, conflicts: seq<Warning>, unknown: seq<Warning>)
    requires !Skips(o)
    requires Elements(enableList) == NamesIn(Items(o.enable)) && Elements(disableList) == NamesIn(Items(o.disable))
    requires ModeWarned(Norm(if o.mode.Some? then o.mode.value else "auto"), modeWarnings)
    requires Elements(enable) == Elements(enableList) - Elements(disableList)
    requires ConflictWarned(enableList, disableList, conflicts) && FeaturesWarned(enable, disableList, unknown)
    ensures forall w :: w in modeWarnings + conflicts + unknown <==> Warns(o, w)
  {
    hide Norm, Skips, NamesIn, ModeFor;
    var en, dis := Elements(enableList), Elements(disableList);
    forall f
      ensures f in enableList <==> f in en
      ensures f in disableList <==> f in dis
      ensures f in enable <==> f in en && f !in dis
    {
      assert f in enable <==> f in Elements(enable);
    }
  }

  ghost predicate ModeWarned(requested: string, warnings: seq<Warning>) {
    forall w :: w in warnings <==>
      || (w == LegacyMode && requested == "enterprise")
      || (w == UnknownMode(ModeFor(requested)) && ModeFor(requested) !in KNOWN_MODES)
  }

  method ResolveMode(requested: string) returns (mode: string, warnings: seq<Warning>)
    ensures mode == ModeFor(requested) && ModeWarned(requested, warnings)
  {
    mode, warnings := requested, [];
    if mode == "enterprise" {
      mode := "advanced";
      warnings := [LegacyMode];
    }
    if mode == "auto" {
      mode := "rose";
    }
    if mode !in KNOWN_MODES {
      warnings := warnings + [UnknownMode(mode)];
    }
  }

  function Elements(names: seq<string>): set<string> {
    set n | n in names
  }

  lemma ElementsOfList(list: Option<seq<string>>)
    ensures Elements(NormalizeFeatureList(list)) == NamesIn(Items(list))
  {
  }

  lemma DisableWins(enable: set<string>, disable: set<string>)
    ensures Features(enable - disable, disable) == Features(enable, disable)
  {
  }

  lemma ElementsSnoc(names: seq<string>, i: nat)
    requires i < |names|
    ensures Elements(names[..i + 1]) == Elements(names[..i]) + {names[i]}
  {
    assert names[..i + 1] == names[..i] + [names[i]];
  }

  ghost predicate ConflictWarned(enableList: seq<string>, disableList: seq<string>, warnings: seq<Warning>) {
    forall w :: w in warnings <==> w.OnBothLists? && w.feature in enableList && w.feature in disableList
  }

  /** The enabled features that are not disabled as well. */
  method WithoutConflicting(enableList: seq<string>, disableList: seq<string>)
    returns (enable: seq<string>, warnings: seq<Warning>)
    ensures Elements(enable) == Elements(enableList) - Elements(disableList)
    ensures ConflictWarned(enableList, disableList, warnings)
  {
    enable, warnings := [], [];
    for i := 0 to |enableList|
      invariant Elements(enable) == Elements(enableList[..i]) - Elements(disableList)
      invariant ConflictWarned(enableList[..i], disableList, warnings)
    {
      ElementsSnoc(enableList, i);
      assert enableList[..i + 1] == enableList[..i] + [enableList[i]];
      if enableList[i] !in disableList {
        ghost var before := enable;
        enable := enable + [enableList[i]];
        assert Elements(enable) == Elements(before) + {enableList[i]};
      } else {
        warnings := warnings + [OnBothLists(enableList[i])];
      }
    }
    assert enableList[..|enableList|] == enableList;
  }

  ghost predicate FeaturesWarned(enable: seq<string>, disable: seq<string>, warnings: seq<Warning>) {
    forall w :: w in warnings <==>
      || (w.UnknownEnabled? && w.feature in enable && w.feature !in KNOWN_FEATURES)
      || (w.UnknownDisabled? && w.feature in disable && w.feature !in KNOWN_FEATURES)
  }

  method FeatureRecord(enable: seq<string>, disable: seq<string>)
    returns (features: map<string, Setting>, warnings: seq<Warning>)
    ensures features == Features(Elements(enable), Elements(disable))
    ensures FeaturesWarned(enable, disable, warnings)
  {
    features, warnings := map[], [];
    for i := 0 to |enable|
      invariant features == Features(Elements(enable[..i]), {})
      invariant FeaturesWarned(enable[..i], [], warnings)
    {
      ElementsSnoc(enable, i);
      AssignYes(Elements(enable[..i]), enable[i]);
      assert enable[..i + 1] == enable[..i] + [enable[i]];
      if enable[i] !in KNOWN_FEATURES {
        warnings := warnings + [UnknownEnabled(enable[i])];
      }
      features := Assign(features, enable[i], Yes);
    }
    assert enable[..|enable|] == enable;
    for i := 0 to |disable|
      invariant features == Features(Elements(enable), Elements(disable[..i]))
      invariant FeaturesWarned(enable, disable[..i], warnings)
    {
      ElementsSnoc(disable, i);
      AssignNo(Elements(enable), Elements(disable[..i]), disable[i]);
      assert disable[..i + 1] == disable[..i] + [disable[i]];
      if disable[i] !in KNOWN_FEATURES {
        warnings := warnings + [UnknownDisabled(disable[i])];
      }
      features := Assign(features, disable[i], No);
    }
    assert disable[..|disable|] == disable;
  }

  lemma AssignYes(enable: set<string>, name: string)
    ensures Features(enable + {name}, {}) == Assign(Features(enable, {}), name, Yes)
  {
  }

  lemma AssignNo(enable: set<string>, disable: set<string>, name: string)
    ensures Features(enable, disable + {name}) == Assign(Features(enable, disable), name, No)
  {
  }

  /** What resolving can produce, and resolving leaves as it is. */
  ghost predicate Settled(selection: Resolved) {
    && selection.Selection?
    && selection.mode.Some?
    && Norm(selection.mode.value) == selection.mode.value
    && selection.mode.value !in SKIP_VALUES
    && ModeFor(selection.mode.value) == selection.mode.value
    && "__proto__" !in selection.features
    && forall name :: name in selection.features ==> Clean(name)
  }

  function Named(features: map<string, Setting>, setting: Setting): set<string> {
    set name | name in features && features[name] == setting
  }

  /** A resolved request is settled: its names are normal, its mode no alias and no skip value. */
  lemma ResolvedIsSettled(options: Option<Options>)
    ensures Resolve(options).Selection? ==> Settled(Resolve(options))
  {
    if Resolve(options).Selection? {
      var o := options.value;
      ModeIsSettled(if o.mode.Some? then o.mode.value else "auto");
      NamesAreClean(Items(o.enable));
      NamesAreClean(Items(o.disable));
    }
  }

  lemma ModeIsSettled(text: string)
    ensures var mode := ModeFor(Norm(text));
            && Norm(mode) == mode && ModeFor(mode) == mode
            && (Norm(text) !in SKIP_VALUES ==> mode !in SKIP_VALUES)
  {
    hide Norm, Trim;
    NormIsNormal(text);
    WordsAreNormal();
  }

  lemma WordsAreNormal()
    ensures Norm("advanced") == "advanced" && Norm("rose") == "rose" && Norm("auto") == "auto" && Norm("mode") == "mode"
  {
    hide Norm;
    SmallIsNormal("advanced");
    SmallIsNormal("rose");
    SmallIsNormal("auto");
    SmallIsNormal("mode");
  }

  /** Asking again for exactly what was resolved resolves to the same selection. */
  lemma ResolveAgain(selection: Resolved, enable: Option<seq<string>>, disable: Option<seq<string>>)
    requires Settled(selection)
    requires NamesIn(Items(enable)) == Named(selection.features, Yes)
    requires NamesIn(Items(disable)) == Named(selection.features, No)
    ensures Resolve(Some(Options(selection.mode, enable, disable))) == selection
  {
    hide Norm, Clean, NamesIn, Items;
    assert Features(Named(selection.features, Yes), Named(selection.features, No)) == selection.features;
  }

  // ---- What a request means --------------------------------------------------------------

  /** `value` is one of the words, in small or capital letters and with blanks around it. */
  ghost predicate IsOneOf(value: string, words: seq<string>) {
    exists w :: w in words && Spells(value, w)
  }

  /** A comma-separated piece of an item of the list spells the name. */
  ghost predicate Lists(list: Option<seq<string>>, name: string) {
    list.Some? && exists i, piece :: 0 <= i < |list.value| && piece in Split(list.value[i], ",") && Spells(piece, name)
  }

  lemma {:induction false} PiecesOfItems(items: seq<string>, piece: string)
    ensures piece in Pieces(items) <==> exists i :: 0 <= i < |items| && piece in Split(items[i], ",")
  {
    if items != [] {
      PiecesOfItems(items[1..], piece);
      assert forall i :: 1 <= i < |items| ==> items[i] == items[1..][i - 1];
      assert forall i :: 0 <= i < |items| - 1 ==> items[1..][i] == items[i + 1];
    }
  }

  lemma NamesListed(list: Option<seq<string>>, name: string)
    requires InSmall(name)
    ensures name in NamesIn(Items(list)) <==> name != "" && Lists(list, name)
  {
    hide Norm, Spells, InSmall, Split, Pieces;
    var items := Items(list);
    forall piece
      ensures piece in Pieces(items) <==> exists i :: 0 <= i < |items| && piece in Split(items[i], ",")
      ensures Norm(piece) == name <==> Spells(piece, name)
    {
      PiecesOfItems(items, piece);
      NormSpells(piece, name);
    }
  }

  /** The mode text of a request; without one, the text `auto`. */
  function ModeText(o: Options): string {
    if o.mode.Some? then o.mode.value else "auto"
  }

  /** What a request resolves to: nothing for the skip words; otherwise a mode, with `auto` and
      `enterprise` standing for others, and the listed features, on unless listed to be off. */
  lemma ResolvedWords(o: Options, word: string)
    requires InSmall(word)
    ensures var resolved := Resolve(Some(o));
            && (resolved.Skip? <==> IsOneOf(ModeText(o), ["skip", "none", "off", "disabled"]))
            && (resolved.Selection? ==>
                  && resolved.mode.Some? && InSmall(resolved.mode.value)
                  && (resolved.mode.value == word
                      <==> if word == "rose" then IsOneOf(ModeText(o), ["rose", "auto"])
                           else if word == "advanced" then IsOneOf(ModeText(o), ["advanced", "enterprise"])
                           else word !in ["auto", "enterprise"] && Spells(ModeText(o), word))
                  && (word in resolved.features <==>
                        word !in ["", "__proto__"] && (Lists(o.enable, word) || Lists(o.disable, word)))
                  && (word in resolved.features ==> (resolved.features[word] == No <==> Lists(o.disable, word))))
  {
    hide Norm, Spells, InSmall, NamesIn, Lists, IsOneOf;
    var text := ModeText(o);
    ModeSpelled(text);
    NormSpells(text, word);
    NamesListed(o.enable, word);
    NamesListed(o.disable, word);
    ModeIsSettled(text);
    NormalIsSmall(ModeFor(Norm(text)));
  }

  lemma ModeSpelled(text: string)
    ensures IsOneOf(text, ["skip", "none", "off", "disabled"]) <==> Norm(text) in SKIP_VALUES
    ensures IsOneOf(text, ["rose", "auto"]) <==> Norm(text) in ["rose", "auto"]
    ensures IsOneOf(text, ["advanced", "enterprise"]) <==> Norm(text) in ["advanced", "enterprise"]
    ensures IsOneOf(text, ["home", "advanced", "basic", "rose", "auto"])
            <==> Norm(text) in ["home", "advanced", "basic", "rose", "auto"]
  {
    hide Norm, IsOneOf;
    NormIsOneOf(text, ["skip", "none", "off", "disabled"]);
    NormIsOneOf(text, ["rose", "auto"]);
    NormIsOneOf(text, ["advanced", "enterprise"]);
    NormIsOneOf(text, ["home", "advanced", "basic", "rose", "auto"]);
  }

  /** There is no warning exactly when a skip comes without lists, or the mode is a current one, no
      feature is on both lists, and every listed feature is a known one. */
  lemma NoWarning(o: Options)
    ensures (forall w :: !Warns(o, w))
            <==> if IsOneOf(ModeText(o), ["skip", "none", "off", "disabled"]) then
                   (o.enable == None || o.enable == Some([])) && (o.disable == None || o.disable == Some([]))
                 else
                   && IsOneOf(ModeText(o), ["home", "advanced", "basic", "rose", "auto"])
                   && forall name :: InSmall(name) && name != "" && (Lists(o.enable, name) || Lists(o.disable, name)) ==>
                        && !(Lists(o.enable, name) && Lists(o.disable, name))
                        && name in {"scheduler", "socks", "fetch", "pptp", "l2tp", "bandwidth-test", "traffic-gen",
                                    "sniffer", "ipsec", "romon", "proxy", "hotspot", "smb", "email", "zerotier",
                                    "container", "install-any-version", "partitions", "routerboard"}
  {
    hide Norm, Spells, InSmall, NamesIn, Lists, IsOneOf, Warns;
    ModeSpelled(ModeText(o));
    WarningsDue(o);
    forall name
      ensures name in NamesIn(Items(o.enable)) <==> InSmall(name) && name != "" && Lists(o.enable, name)
      ensures name in NamesIn(Items(o.disable)) <==> InSmall(name) && name != "" && Lists(o.disable, name)
    {
      NameListed(o.enable, name);
      NameListed(o.disable, name);
    }
  }

  lemma WarningsDue(o: Options)
    ensures Skips(o) ==> ((forall w :: !Warns(o, w)) <==> Items(o.enable) == [] && Items(o.disable) == [])
    ensures !Skips(o) ==>
              ((forall w :: !Warns(o, w))
               <==> && Norm(ModeText(o)) in ["home", "advanced", "basic", "rose", "auto"]
                    && forall name :: name in NamesIn(Items(o.enable)) + NamesIn(Items(o.disable)) ==>
                         && !(name in NamesIn(Items(o.enable)) && name in NamesIn(Items(o.disable)))
                         && name in KNOWN_FEATURES)
  {
    hide Norm, NamesIn, KNOWN_FEATURES;
    var requested := Norm(ModeText(o));
    var enable, disable := NamesIn(Items(o.enable)), NamesIn(Items(o.disable));
    if Skips(o) {
      assert Warns(o, ListsIgnored) <==> Items(o.enable) != [] || Items(o.disable) != [];
    } else if forall w :: !Warns(o, w) {
      assert !Warns(o, LegacyMode) && !Warns(o, UnknownMode(ModeFor(requested)));
      forall name | name in enable + disable
        ensures !(name in enable && name in disable) && name in KNOWN_FEATURES
      {
        assert !Warns(o, OnBothLists(name)) && !Warns(o, UnknownEnabled(name)) && !Warns(o, UnknownDisabled(name));
      }
    }
  }

  lemma NameListed(list: Option<seq<string>>, name: string)
    ensures name in NamesIn(Items(list)) <==> InSmall(name) && name != "" && Lists(list, name)
  {
    hide Norm, InSmall, Lists, Pieces;
    if name in NamesIn(Items(list)) {
      var piece :| piece in Pieces(Items(list)) && Norm(piece) == name;
      NormIsNormal(piece);
      NormalIsSmall(name);
    }
    if InSmall(name) {
      NamesListed(list, name);
    }
  }

  lemma NormIsOneOf(value: string, words: seq<string>)
    requires forall w :: w in words ==> InSmall(w)
    ensures IsOneOf(value, words) <==> Norm(value) in words
  {
    hide Norm, Spells, InSmall;
    forall w | w in words
      ensures Norm(value) == w <==> Spells(value, w)
    {
      NormSpells(value, w);
    }
  }

  // ---- Verifying against the guest -------------------------------------------------------

  function Word(setting: Setting): string {
    match setting
    case Yes => "yes"
    case No => "no"
  }

  function Words(features: map<string, Setting>, names: set<string>): map<string, string> {
    map name | name in features && name in names :: Word(features[name])
  }

  function ToYesNo(value: string): string {
    var normalized := Norm(value);
    if normalized in ["yes", "true", "on", "enabled", "1"] then "yes"
    else if normalized in ["no", "false", "off", "disabled", "0"] then "no"
    else normalized
  }

  /** The rows the guest should report; a feature called `mode` overwrites the mode. */
  function Expected(selection: Resolved): map<string, string> {
    if selection.Skip? then map[]
    else
      (if selection.mode.Some? && selection.mode.value != "" then map["mode" := Norm(selection.mode.value)] else map[])
      + Words(selection.features, selection.features.Keys)
  }

  predicate Meets(key: string, want: string, actual: map<string, string>) {
    key in actual && actual[key] != "" && (if key == "mode" then Norm(actual[key]) else ToYesNo(actual[key])) == want
  }

  function Mismatched(selection: Resolved, actual: map<string, string>): set<string> {
    set key | key in Expected(selection) && !Meets(key, Expected(selection)[key], actual)
  }

  /** A row the guest does not meet: what it reports instead, if anything. */
  datatype Mismatch = Mismatch(key: string, want: string, was: Option<string>)

  function Reported(key: string, actual: map<string, string>): Option<string> {
    if key in actual && actual[key] != "" then Some(if key == "mode" then Norm(actual[key]) else ToYesNo(actual[key]))
    else None
  }

  /** `selection` comes from resolving, so its names are normal. */
  method VerifyDeviceMode(selection: Resolved, actual: map<string, string>)
    returns (ok: bool, mismatches: seq<Mismatch>, expected: map<string, string>)
    requires selection.Selection? ==> Settled(selection)
    ensures expected == Expected(selection)
    ensures forall m :: m in mismatches <==>
              m.key in Mismatched(selection, actual) && m.want == expected[m.key] && m.was == Reported(m.key, actual)
    ensures ok <==> forall key :: key in expected ==> Meets(key, expected[key], actual)
    ensures ok <==> Mismatched(selection, actual) == {}
  {
    hide Settled, Norm, ToYesNo;
    NormalWhenSettled(selection);
    expected := ExpectedRows(selection);
    mismatches := [];
    var left := expected.Keys;
    while left != {}
      invariant left <= expected.Keys
      invariant forall m :: m in mismatches <==>
                  m.key in expected && m.key !in left && !Meets(m.key, expected[m.key], actual)
                  && m.want == expected[m.key] && m.was == Reported(m.key, actual)
      decreases left
    {
      var key :| key in left;
      if !(key in actual && actual[key] != "") {
        mismatches := mismatches + [Mismatch(key, expected[key], None)];
      } else {
        var actualNorm := if key == "mode" then Norm(actual[key]) else ToYesNo(actual[key]);
        if actualNorm != expected[key] {
          mismatches := mismatches + [Mismatch(key, expected[key], Some(actualNorm))];
        }
      }
      left := left - {key};
    }
    ok := mismatches == [];
    if ok {
      forall key | key in expected
        ensures Meets(key, expected[key], actual)
      {
        assert Mismatch(key, expected[key], Reported(key, actual)) !in mismatches;
      }
    } else {
      assert mismatches[0] in mismatches;
    }
  }

  lemma NormalWhenSettled(selection: Resolved)
    ensures selection.Selection? && Settled(selection) ==> NormalNames(selection.features)
  {
  }

  predicate NormalNames(features: map<string, Setting>) {
    forall name :: name in features ==> Norm(name) == name && name != "__proto__"
  }

  lemma WordsSnoc(features: map<string, Setting>, names: set<string>, name: string)
    requires name in features
    ensures Words(features, names + {name}) == Words(features, names)[name := Word(features[name])]
  {
  }

  method ExpectedRows(selection: Resolved) returns (expected: map<string, string>)
    requires selection.Selection? ==> NormalNames(selection.features)
    ensures expected == Expected(selection)
  {
    expected := map[];
    if selection.Skip? {
      return;
    }
    if selection.mode.Some? && selection.mode.value != "" {
      expected := expected["mode" := Norm(selection.mode.value)];
    }
    var rows := FeatureRows(selection.features);
    expected := expected + rows;
  }

  method FeatureRows(features: map<string, Setting>) returns (rows: map<string, string>)
    requires NormalNames(features)
    ensures rows == Words(features, features.Keys)
  {
    rows := map[];
    var left := features.Keys;
    while left != {}
      invariant left <= features.Keys
      invariant rows == Words(features, features.Keys - left)
      decreases left
    {
      var name :| name in left;
      WordsSnoc(features, features.Keys - left, name);
      assert features.Keys - (left - {name}) == features.Keys - left + {name};
      rows := Assign(rows, Norm(name), Word(features[name]));
      left := left - {name};
    }
  }

  /** The guest verifies a selection exactly when it reports its mode and each of its features. */
  lemma VerifiedMeans(selection: Resolved, actual: map<string, string>)
    requires Settled(selection) && "mode" !in selection.features
    ensures Mismatched(selection, actual) == {}
            <==> && (selection.mode.value != "" ==> "mode" in actual && Norm(actual["mode"]) == selection.mode.value)
                 && forall name :: name in selection.features ==>
                      name in actual && ToYesNo(actual[name]) == Word(selection.features[name])
  {
    hide Norm, ToYesNo, Clean;
    var expected := Expected(selection);
    NothingIsNothing();
    assert forall name :: name in selection.features ==> name in expected && expected[name] == Word(selection.features[name]);
    assert selection.mode.value != "" ==> "mode" in expected && expected["mode"] == Norm(selection.mode.value);
    if Mismatched(selection, actual) == {} {
      forall key | key in expected
        ensures Meets(key, expected[key], actual)
      {
        assert key !in Mismatched(selection, actual);
      }
    }
  }

  /** Which answers of the guest mean that a feature is on, and which that it is off. */
  lemma SettingSpelled(value: string)
    ensures ToYesNo(value) == "yes" <==> IsOneOf(value, ["yes", "true", "on", "enabled", "1"])
    ensures ToYesNo(value) == "no" <==> IsOneOf(value, ["no", "false", "off", "disabled", "0"])
  {
    hide Norm, IsOneOf;
    NormIsOneOf(value, ["yes", "true", "on", "enabled", "1"]);
    NormIsOneOf(value, ["no", "false", "off", "disabled", "0"]);
  }

  /** What a mismatch says the guest reports: nothing for a missing or empty row, yes or no for the
      words for on and off, and the normal form of any other answer. */
  lemma ReportedWords(key: string, actual: map<string, string>, word: string)
    requires InSmall(word)
    ensures Reported(key, actual) == None <==> key !in actual || actual[key] == ""
    ensures Reported(key, actual) == Some(word)
            <==> && key in actual && actual[key] != ""
                 && if key == "mode" then Spells(actual[key], word)
                    else if word == "yes" then IsOneOf(actual[key], ["yes", "true", "on", "enabled", "1"])
                    else if word == "no" then IsOneOf(actual[key], ["no", "false", "off", "disabled", "0"])
                    else Spells(actual[key], word) && word !in ["true", "on", "enabled", "1", "false", "off", "disabled", "0"]
  {
    hide Norm, IsOneOf, Spells, InSmall;
    if key in actual {
      SettingSpelled(actual[key]);
      NormSpells(actual[key], word);
    }
  }

  /** A settled selection is verified exactly when the guest reports its mode, a word for on for
      each feature set to yes, and a word for off for each set to no. */
  lemma VerifiedWords(selection: Resolved, actual: map<string, string>)
    requires Settled(selection) && "mode" !in selection.features
    ensures Mismatched(selection, actual) == {}
            <==> && (selection.mode.value != "" ==> "mode" in actual && Spells(actual["mode"], selection.mode.value))
                 && (forall name :: name in selection.features && selection.features[name] == Yes ==>
                       name in actual && IsOneOf(actual[name], ["yes", "true", "on", "enabled", "1"]))
                 && (forall name :: name in selection.features && selection.features[name] == No ==>
                       name in actual && IsOneOf(actual[name], ["no", "false", "off", "disabled", "0"]))
  {
    hide Norm, ToYesNo, Mismatched, IsOneOf, Spells, InSmall;
    VerifiedMeans(selection, actual);
    NormalIsSmall(selection.mode.value);
    if "mode" in actual {
      NormSpells(actual["mode"], selection.mode.value);
    }
    forall name | name in actual
      ensures ToYesNo(actual[name]) == "yes" <==> IsOneOf(actual[name], ["yes", "true", "on", "enabled", "1"])
      ensures ToYesNo(actual[name]) == "no" <==> IsOneOf(actual[name], ["no", "false", "off", "disabled", "0"])
    {
      SettingSpelled(actual[name]);
    }
  }

  lemma NothingIsNothing()
    ensures Norm("") == "" && ToYesNo("") == ""
    ensures forall setting :: Word(setting) != ""
  {
  }

  datatype Change = Change(was: Option<string>, want: string)

  /** The text before the first colon: how a key is read back out of a mismatch message. */
  function BeforeColon(key: string): string {
    Split(key, ":")[0]
  }

  /** The rows a change description shows. */
  function Described(selection: Resolved, actual: map<string, string>): map<string, Change> {
    var changed := set m | m in Mismatched(selection, actual) :: BeforeColon(m);
    map key | key in Expected(selection) && key in changed
      :: Change(if key in actual then Some(actual[key]) else None, Expected(selection)[key])
  }

  /** A row shows what the guest reports, as it reports it, and what was asked for. */
  lemma DescribedRow(selection: Resolved, actual: map<string, string>, key: string)
    requires Settled(selection) && "mode" !in selection.features && key in Described(selection, actual)
    ensures var row := Described(selection, actual)[key];
            && row.was == (if key in actual then Some(actual[key]) else None)
            && if key == "mode" then row.want == selection.mode.value
               else key in selection.features
                    && row.want == match selection.features[key] case Yes => "yes" case No => "no"
  {
    hide Norm, Mismatched, BeforeColon, Clean;
  }

  /** The description shows exactly the rows that would move, except when the name of one of
      them contains a colon. */
  lemma DescribesTheChanges(selection: Resolved, actual: map<string, string>)
    ensures Described(selection, actual).Keys == Mismatched(selection, actual)
            <==> forall m :: m in Mismatched(selection, actual) ==> ':' !in m
  {
    var mismatched := Mismatched(selection, actual);
    forall m | m in mismatched
      ensures BeforeColon(m) == m <==> ':' !in m
      ensures ':' !in BeforeColon(m)
    {
      ColonParts(m);
    }
    if m :| m in mismatched && ':' in m {
      assert m !in Described(selection, actual);
    }
  }

  /** The documented cue: an empty description means that nothing would move. It misleads exactly
      when something is mismatched and the text before the colon of every mismatched name is
      no name of the selection. */
  lemma EmptyDescriptionMisleads(selection: Resolved, actual: map<string, string>)
    ensures Described(selection, actual) == map[] && Mismatched(selection, actual) != {}
            <==> Mismatched(selection, actual) != {}
                 && forall m :: m in Mismatched(selection, actual) ==> BeforeColon(m) !in Expected(selection)
  {
    var mismatched, described := Mismatched(selection, actual), Described(selection, actual);
    if described == map[] {
      forall m | m in mismatched
        ensures BeforeColon(m) !in Expected(selection)
      {
        assert BeforeColon(m) !in described;
      }
    } else {
      var key :| key in described;
      assert key in Expected(selection) && exists m :: m in mismatched && BeforeColon(m) == key;
    }
  }

  /** It cannot mislead about a mode, or about a feature whose name has no colon. */
  lemma PlainMismatchIsDescribed(selection: Resolved, actual: map<string, string>, key: string)
    requires key in Mismatched(selection, actual) && ':' !in key
    ensures key in Described(selection, actual)
  {
    ColonParts(key);
  }

  /** A feature `a:b` that the guest does not have: nothing is described, and it would move. */
  lemma UndescribedChange()
    ensures var request := Options(Some("rose"), Some(["a:b"]), None);
            var selection, actual := Resolve(Some(request)), map["mode" := "rose"];
            && selection == Selection(Some("rose"), map["a:b" := Yes])
            && Described(selection, actual) == map[] && Mismatched(selection, actual) == {"a:b"}
  {
    hide Norm, Trim, Resolve, ToYesNo, BeforeColon;
    SmallIsNormal("a:b");
    WordsAreNormal();
    OneFeature("rose", "a:b");
    UnmetFeature("rose", "a:b");
    BeforeItsColon();
    hide Described, Expected;
    EmptyDescriptionMisleads(Selection(Some("rose"), map["a:b" := Yes]), map["mode" := "rose"]);
    assert "a" != "mode" && "a" != "a:b";
  }

  lemma BeforeItsColon()
    ensures BeforeColon("a:b") == "a"
  {
    assert "a:b" == "a" + [':'] + "b";
    SplitAtFirst("a", ':', "b");
  }

  /** A guest that reports the mode and nothing of the feature. */
  lemma UnmetFeature(mode: string, name: string)
    requires mode != "" && Norm(mode) == mode && name != "mode"
    ensures var (selection, actual) := (Selection(Some(mode), map[name := Yes]), map["mode" := mode]);
            Expected(selection).Keys == {"mode", name} && Mismatched(selection, actual) == {name}
  {
    hide Norm, ToYesNo;
    var selection, actual := Selection(Some(mode), map[name := Yes]), map["mode" := mode];
    assert Expected(selection) == map["mode" := mode, name := "yes"];
    assert Meets("mode", mode, actual);
  }

  lemma ModeAlone(mode: string)
    requires Norm(mode) == mode && mode !in SKIP_VALUES && ModeFor(mode) == mode
    ensures Resolve(Some(Options(Some(mode), None, None))) == Selection(Some(mode), map[])
  {
    hide Norm;
    assert NamesIn([]) == {} && Features({}, {}) == map[];
  }

  /** A request for one clean feature. */
  lemma OneFeature(mode: string, name: string)
    requires Norm(mode) == mode && mode !in SKIP_VALUES && ModeFor(mode) == mode
    requires Norm(name) == name && name != "" && ',' !in name && name != "__proto__"
    ensures Resolve(Some(Options(Some(mode), Some([name]), None))) == Selection(Some(mode), map[name := Yes])
  {
    hide Norm;
    PiecesOfPlain([name]);
    assert NamesIn([name]) == {name};
    assert NamesIn([]) == {};
    assert Features({name}, {}) == map[name := Yes];
  }

  lemma ColonParts(m: string)
    ensures BeforeColon(m) == m <==> ':' !in m
    ensures ':' !in BeforeColon(m)
  {
    match IndexOf(m, ":")
    case None => NotFound(m, ':');
    case Some(i) =>
      FoundFirst(m, ':');
      IndexInside(m, ":");
      assert m[i..i + 1] == ":";
      assert m[i] == ':';
  }

  // ---- The cumulative record -------------------------------------------------------------

  ghost function OptionalList(names: set<string>): Option<seq<string>> {
    if names == {} then None else Some(Sorted(names))
  }

  function RecordedMode(current: Option<Options>, applied: Option<string>): Option<string> {
    if applied.Some? then applied else if current.Some? then current.value.mode else None
  }

  function Enabled(current: Option<Options>): set<string> {
    if current.Some? then NamesIn(Items(current.value.enable)) else {}
  }

  function Disabled(current: Option<Options>): set<string> {
    if current.Some? then NamesIn(Items(current.value.disable)) else {}
  }

  /** The record after applying a selection: each named feature is on one side only. */
  ghost function Merge(current: Option<Options>, applied: Resolved): Options {
    if applied.Skip? then if current.Some? then current.value else Options(None, None, None)
    else
      Options(RecordedMode(current, applied.mode),
              OptionalList(Enabled(current) - applied.features.Keys + Named(applied.features, Yes)),
              OptionalList(Disabled(current) - applied.features.Keys + Named(applied.features, No)))
  }

  method MergeDeviceModeOptions(current: Option<Options>, applied: Resolved) returns (record: Options)
    ensures record == Merge(current, applied)
  {
    if applied.Skip? {
      return if current.Some? then current.value else Options(None, None, None);
    }
    var enableList := NormalizeFeatureList(if current.Some? then current.value.enable else None);
    var disableList := NormalizeFeatureList(if current.Some? then current.value.disable else None);
    ElementsOfCurrent(current);
    var enable, disable := MoveFeatures(Elements(enableList), Elements(disableList), applied.features);
    var enabled := ListUnlessEmpty(enable);
    var disabled := ListUnlessEmpty(disable);
    return Options(RecordedMode(current, applied.mode), enabled, disabled);
  }

  lemma ElementsOfCurrent(current: Option<Options>)
    ensures Elements(NormalizeFeatureList(if current.Some? then current.value.enable else None)) == Enabled(current)
    ensures Elements(NormalizeFeatureList(if current.Some? then current.value.disable else None)) == Disabled(current)
  {
    ElementsOfList(if current.Some? then current.value.enable else None);
    ElementsOfList(if current.Some? then current.value.disable else None);
  }

  method ListUnlessEmpty(names: set<string>) returns (list: Option<seq<string>>)
    ensures list == OptionalList(names)
  {
    if names == {} {
      return None;
    }
    var sorted := SortNames(names);
    return Some(sorted);
  }

  /** Each named feature leaves the side it is on and joins the one it was set to. */
  method MoveFeatures(enabled: set<string>, disabled: set<string>, features: map<string, Setting>)
    returns (enable: set<string>, disable: set<string>)
    ensures enable == enabled - features.Keys + Named(features, Yes)
    ensures disable == disabled - features.Keys + Named(features, No)
  {
    enable, disable := enabled, disabled;
    var left := features.Keys;
    while left != {}
      invariant left <= features.Keys
      invariant forall n :: n in enable <==> if n in features && n !in left then features[n] == Yes else n in enabled
      invariant forall n :: n in disable <==> if n in features && n !in left then features[n] == No else n in disabled
      decreases left
    {
      var feature :| feature in left;
      enable := enable - {feature};
      disable := disable - {feature};
      if features[feature] == Yes {
        enable := enable + {feature};
      } else {
        disable := disable + {feature};
      }
      left := left - {feature};
    }
  }

  lemma NamesOfOptionalList(names: set<string>)
    requires forall n :: n in names ==> Clean(n)
    ensures NamesIn(Items(OptionalList(names))) == names
  {
    if names != {} {
      NamesOfClean(Sorted(names));
    }
  }

  /** Resolving the merged record: everything the lists of the record asked for, overridden by
      what was applied. */
  lemma MergeResolves(current: Option<Options>, applied: Resolved)
    requires Settled(applied)
    ensures Resolve(Some(Merge(current, applied)))
            == Selection(applied.mode, Features(Enabled(current), Disabled(current)) + applied.features)
  {
    var enable := Enabled(current) - applied.features.Keys + Named(applied.features, Yes);
    var disable := Disabled(current) - applied.features.Keys + Named(applied.features, No);
    if current.Some? {
      NamesAreClean(Items(current.value.enable));
      NamesAreClean(Items(current.value.disable));
    }
    NamesOfOptionalList(enable);
    NamesOfOptionalList(disable);
    SidesOverride(Enabled(current), Disabled(current), applied.features);
  }

  lemma SidesOverride(enable: set<string>, disable: set<string>, features: map<string, Setting>)
    requires "__proto__" !in features
    ensures Features(enable - features.Keys + Named(features, Yes), disable - features.Keys + Named(features, No))
            == Features(enable, disable) + features
  {
  }

  /** What applying does to the settings: only the named ones move. */
  function Override(selection: Resolved, applied: Resolved): Resolved {
    if applied.Skip? then selection
    else if selection.Skip? then applied
    else Selection(if applied.mode.Some? then applied.mode else selection.mode, selection.features + applied.features)
  }

  lemma CurrentResolves(current: Options)
    ensures var resolved := Resolve(Some(current));
            resolved.Selection? ==> resolved.features == Features(Enabled(Some(current)), Disabled(Some(current)))
  {
    hide Norm, Features, NamesIn;
  }

  lemma SettledMode(applied: Resolved)
    requires Settled(applied)
    ensures applied.Selection? && applied.mode.Some?
  {
  }

  /** The record keeps up with the settings exactly when it is not a skip record that still
      lists features the update does not name. */
  lemma MergeIsOverride(current: Options, applied: Resolved)
    requires Settled(applied)
    ensures Resolve(Some(Merge(Some(current), applied))) == Override(Resolve(Some(current)), applied)
            <==> Resolve(Some(current)).Selection?
                 || Features(Enabled(Some(current)), Disabled(Some(current))).Keys <= applied.features.Keys
  {
    hide Features, Enabled, Disabled, Merge, Settled;
    CurrentResolves(current);
    MergeResolves(Some(current), applied);
    SettledMode(applied);
    var listed := Features(Enabled(Some(current)), Disabled(Some(current)));
    if Resolve(Some(current)).Skip? {
      if listed.Keys <= applied.features.Keys {
        assert listed + applied.features == applied.features;
      } else {
        var name :| name in listed && name !in applied.features;
        assert name in listed + applied.features;
      }
    }
  }

  /** A record that says skip and still lists a feature: the feature comes back. */
  lemma SkipRecordRevives()
    ensures var record := Options(Some("skip"), Some(["a"]), None);
            var applied := Selection(Some("rose"), map["b" := Yes]);
            && Resolve(Some(record)) == Skip && Override(Skip, applied) == applied
            && Resolve(Some(Merge(Some(record), applied))) == Selection(Some("rose"), map["a" := Yes, "b" := Yes])
  {
    hide Norm, Trim, Merge;
    var record := Options(Some("skip"), Some(["a"]), None);
    var applied := Selection(Some("rose"), map["b" := Yes]);
    ShortNames();
    WordsAreNormal();
    ListedOnce("a");
    MergeResolves(Some(record), applied);
    assert map["a" := Yes] + map["b" := Yes] == map["a" := Yes, "b" := Yes];
  }

  lemma ListedOnce(name: string)
    requires Clean(name) && name != "__proto__"
    ensures NamesIn([name]) == {name} && NamesIn([]) == {} && Features({name}, {}) == map[name := Yes]
  {
    hide Norm, Trim;
    PiecesOfPlain([name]);
  }

  lemma ShortNames()
    ensures Norm("skip") == "skip" && Clean("a") && Clean("b") && Clean("mode")
  {
    hide Norm, Trim;
    SmallIsNormal("skip");
    SmallIsNormal("a");
    SmallIsNormal("b");
    SmallIsNormal("mode");
  }

  /** Merging a skipped selection into nothing records `{}`, which asks for the default mode. */
  lemma SkipOverNothing()
    ensures Resolve(Some(Merge(None, Skip))) == Selection(Some("rose"), map[])
    ensures Override(Resolve(None), Skip) == Skip
  {
    WordsAreNormal();
    assert NamesIn([]) == {};
  }

  // ---- The record against the guest ------------------------------------------------------

  /** The rows an update request names. */
  function Payload(selection: Resolved): map<string, string> {
    if selection.Skip? then map[]
    else
      (if selection.mode.Some? && selection.mode.value != "" then map["mode" := selection.mode.value] else map[])
      + Words(selection.features, selection.features.Keys)
  }

  /** A guest on which only the named rows move. */
  function Updated(actual: map<string, string>, selection: Resolved): map<string, string> {
    actual + Payload(selection)
  }

  ghost predicate Verified(selection: Resolved, actual: map<string, string>) {
    Mismatched(selection, actual) == {}
  }

  ghost function RecordAfter(record: Options, updates: seq<Options>): Options {
    if updates == [] then record
    else Merge(Some(RecordAfter(record, updates[..|updates| - 1])), Resolve(Some(updates[|updates| - 1])))
  }

  function GuestAfter(actual: map<string, string>, updates: seq<Options>): map<string, string> {
    if updates == [] then actual
    else Updated(GuestAfter(actual, updates[..|updates| - 1]), Resolve(Some(updates[|updates| - 1])))
  }

  /** A feature called `mode` was asked for earlier, and this update moves the mode alone. */
  predicate ModeClash(selection: Resolved, applied: Resolved)
    requires selection.Selection? && applied.Selection? && applied.mode.Some?
  {
    && "mode" in selection.features && "mode" !in applied.features
    && applied.mode.value != "" && applied.mode.value != Word(selection.features["mode"])
  }

  /** Every row of a payload is met by a guest that has it. */
  lemma PayloadMet(applied: Resolved, key: string, actual: map<string, string>)
    requires Settled(applied) && key in Payload(applied)
    requires key in actual && actual[key] == Payload(applied)[key]
    ensures Meets(key, Payload(applied)[key], actual)
  {
    if key in applied.features {
      assert Payload(applied)[key] == Word(applied.features[key]);
      SettingWords();
    }
  }

  /** Where the rows of an overridden selection come from. */
  lemma RowsOfOverride(selection: Resolved, applied: Resolved, key: string)
    requires Settled(selection) && Settled(applied) && key in Expected(Override(selection, applied))
    requires !(key == "mode" && ModeClash(selection, applied))
    ensures if key in Payload(applied) then Expected(Override(selection, applied))[key] == Payload(applied)[key]
            else key in Expected(selection) && Expected(Override(selection, applied))[key] == Expected(selection)[key]
  {
  }

  /** A clash leaves the old word expected and the new mode reported. */
  lemma ClashUnmet(selection: Resolved, applied: Resolved, actual: map<string, string>)
    requires Settled(selection) && Settled(applied) && ModeClash(selection, applied)
    ensures "mode" in Mismatched(Override(selection, applied), Updated(actual, applied))
  {
    var result := Override(selection, applied);
    assert "mode" in result.features && result.features["mode"] == selection.features["mode"];
    assert Expected(result)["mode"] == Word(selection.features["mode"]);
    assert Updated(actual, applied)["mode"] == applied.mode.value;
  }

  /** One update: the overridden selection is what the updated guest reports, except after a
      clash over the name `mode`. */
  lemma OverrideVerified(selection: Resolved, applied: Resolved, actual: map<string, string>)
    requires Settled(selection) && Settled(applied) && Verified(selection, actual)
    ensures Verified(Override(selection, applied), Updated(actual, applied)) <==> !ModeClash(selection, applied)
  {
    if ModeClash(selection, applied) {
      ClashUnmet(selection, applied, actual);
    } else {
      forall key | key in Expected(Override(selection, applied))
        ensures Meets(key, Expected(Override(selection, applied))[key], Updated(actual, applied))
      {
        RowsOfOverride(selection, applied, key);
        if key in Payload(applied) {
          PayloadMet(applied, key, Updated(actual, applied));
        } else {
          assert key !in Mismatched(selection, actual);
        }
      }
    }
  }

  /** A feature called `mode`, and then a new mode: the guest no longer verifies the record. */
  lemma FeatureCalledModeBreaks()
    ensures var selection := Resolve(Some(Options(Some("rose"), Some(["mode"]), None)));
            var applied := Resolve(Some(Options(Some("rose"), None, None)));
            var actual := map["mode" := "yes"];
            && selection == Selection(Some("rose"), map["mode" := Yes]) && applied == Selection(Some("rose"), map[])
            && Verified(selection, actual) && !Verified(Override(selection, applied), Updated(actual, applied))
  {
    hide Norm, Trim, ToYesNo, Override, Updated, Resolve;
    var selection, applied := Selection(Some("rose"), map["mode" := Yes]), Selection(Some("rose"), map[]);
    var actual := map["mode" := "yes"];
    ShortNames();
    WordsAreNormal();
    SettingWords();
    OneFeature("rose", "mode");
    ModeAlone("rose");
    assert Expected(selection) == map["mode" := "yes"];
    assert Meets("mode", Word(Yes), actual);
    OverrideVerified(selection, applied, actual);
  }

  /** The first selection applied to a machine is recorded as it is, and its guest verifies it. */
  lemma FirstUpdate(applied: Resolved, actual: map<string, string>)
    requires Settled(applied)
    ensures Resolve(Some(Merge(None, applied))) == applied
    ensures Verified(applied, Updated(actual, applied))
  {
    MergeResolves(None, applied);
    assert Features({}, {}) + applied.features == applied.features;
    UpdatedMeets(applied, actual);
  }

  lemma UpdatedMeets(applied: Resolved, actual: map<string, string>)
    requires Settled(applied)
    ensures Verified(applied, Updated(actual, applied))
  {
    assert Expected(applied) == Payload(applied);
    forall key | key in Expected(applied)
      ensures Meets(key, Expected(applied)[key], Updated(actual, applied))
    {
      PayloadMet(applied, key, Updated(actual, applied));
    }
  }

  ghost predicate NamesMode(options: Options) {
    "mode" in Enabled(Some(options)) + Disabled(Some(options))
  }

  /** Over any sequence of updates, the record resolves to something the guest verifies. */
  lemma {:induction false} RecordFollowsGuest(record: Options, actual: map<string, string>, updates: seq<Options>)
    requires Resolve(Some(record)).Selection? && Verified(Resolve(Some(record)), actual)
    requires !NamesMode(record) && forall u :: u in updates ==> !NamesMode(u)
    ensures var resolved := Resolve(Some(RecordAfter(record, updates)));
            && resolved.Selection? && "mode" !in resolved.features
            && Verified(resolved, GuestAfter(actual, updates))
  {
    if updates != [] {
      var earlier, last := updates[..|updates| - 1], updates[|updates| - 1];
      assert last in updates;
      RecordFollowsGuest(record, actual, earlier);
      RecordStep(RecordAfter(record, earlier), last, GuestAfter(actual, earlier));
    }
  }

  lemma RecordStep(before: Options, update: Options, actual: map<string, string>)
    requires Resolve(Some(before)).Selection? && Verified(Resolve(Some(before)), actual)
    requires "mode" !in Resolve(Some(before)).features && !NamesMode(update)
    ensures var applied := Resolve(Some(update));
            var resolved := Resolve(Some(Merge(Some(before), applied)));
            resolved.Selection? && "mode" !in resolved.features && Verified(resolved, Updated(actual, applied))
  {
    hide Resolve, Merge, Updated, Verified, Settled, NamesMode;
    var applied := Resolve(Some(update));
    NoModeFeature(update);
    SkippedUpdate(before, actual);
    ResolvedIsSettled(Some(before));
    ResolvedIsSettled(Some(update));
    if applied.Selection? {
      SettledMode(applied);
      MergeIsOverride(before, applied);
      OverrideVerified(Resolve(Some(before)), applied, actual);
    }
  }

  lemma NoModeFeature(update: Options)
    requires !NamesMode(update)
    ensures Resolve(Some(update)).Selection? ==> "mode" !in Resolve(Some(update)).features
  {
    hide Norm, NamesIn;
  }

  lemma SkippedUpdate(before: Options, actual: map<string, string>)
    ensures Merge(Some(before), Skip) == before && Updated(actual, Skip) == actual
  {
    assert actual + map[] == actual;
  }

  lemma SettingWords()
    ensures forall s :: Word(s) != "" && ToYesNo(Word(s)) == Word(s) && Norm(Word(s)) == Word(s)
  {
    hide Norm;
    SmallIsNormal("yes");
    SmallIsNormal("no");
  }
}
