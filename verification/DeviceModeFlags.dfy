/**
 * The flags printed for a device-mode selection, and reading them back: through the shell,
 * the flag parser, the device-mode reader and the resolver.
 */
module DeviceModeFlags {
  import opened Prelude
  import opened Text
  import opened Names
  import opened DeviceMode
  import opened CliFlags
  import S = ShellWords

  // ---- Printing --------------------------------------------------------------------------

  /** The flags a selection is printed as, with their values. */
  ghost function Printed(selection: Resolved): seq<(string, string)> {
    if selection.Skip? then []
    else
      (if selection.mode.Some? && selection.mode.value != "" then [("device-mode", selection.mode.value)] else [])
      + PrintedList("device-mode-enable", Named(selection.features, Yes))
      + PrintedList("device-mode-disable", Named(selection.features, No))
  }

  ghost function PrintedList(key: string, names: set<string>): seq<(string, string)> {
    if names == {} then [] else [(key, Join(Sorted(names), ","))]
  }

  function FlagTexts(pairs: seq<(string, string)>): seq<string> {
    if pairs == [] then []
    else ["--" + pairs[0].0 + " " + S.ShellQuote(pairs[0].1)] + FlagTexts(pairs[1..])
  }

  lemma NothingPrinted()
    ensures FlagTexts([]) == [] && Join([], " ") == ""
  {
  }

  method FormatDeviceModeFlags(selection: Resolved) returns (text: string)
    ensures text == Join(FlagTexts(Printed(selection)), " ")
  {
    NothingPrinted();
    FlagPrefixes();
    hide Join, S.ShellQuote, FlagTexts;
    if selection.Skip? {
      return "";
    }
    var parts: seq<string> := [];
    ghost var pairs: seq<(string, string)> := [];
    if selection.mode.Some? && selection.mode.value != "" {
      FlagTextsSnoc(pairs, "device-mode", selection.mode.value);
      parts := parts + ["--device-mode " + S.ShellQuote(selection.mode.value)];
      pairs := pairs + [("device-mode", selection.mode.value)];
    }
    var enable := Named(selection.features, Yes);
    if enable != {} {
      var sorted := SortNames(enable);
      FlagTextsSnoc(pairs, "device-mode-enable", Join(sorted, ","));
      parts := parts + ["--device-mode-enable " + S.ShellQuote(Join(sorted, ","))];
      pairs := pairs + [("device-mode-enable", Join(sorted, ","))];
    }
    var disable := Named(selection.features, No);
    if disable != {} {
      var sorted := SortNames(disable);
      FlagTextsSnoc(pairs, "device-mode-disable", Join(sorted, ","));
      parts := parts + ["--device-mode-disable " + S.ShellQuote(Join(sorted, ","))];
      pairs := pairs + [("device-mode-disable", Join(sorted, ","))];
    }
    assert pairs == Printed(selection);
    return Join(parts, " ");
  }

  lemma {:induction false} FlagTextsSnoc(pairs: seq<(string, string)>, key: string, value: string)
    ensures FlagTexts(pairs + [(key, value)]) == FlagTexts(pairs) + ["--" + key + " " + S.ShellQuote(value)]
  {
    hide S.ShellQuote;
    if pairs != [] {
      FlagTextsSnoc(pairs[1..], key, value);
      assert (pairs + [(key, value)])[1..] == pairs[1..] + [(key, value)];
    }
  }

  lemma FlagPrefixes()
    ensures "--" + "device-mode" + " " == "--device-mode "
    ensures "--" + "device-mode-enable" + " " == "--device-mode-enable "
    ensures "--" + "device-mode-disable" + " " == "--device-mode-disable "
  {
  }

  // ---- From the printed text to the arguments --------------------------------------------

  function Argv(pairs: seq<(string, string)>): seq<string> {
    if pairs == [] then [] else ["--" + pairs[0].0, pairs[0].1] + Argv(pairs[1..])
  }

  predicate DeviceKey(key: string) {
    key == "device-mode" || key == "device-mode-enable" || key == "device-mode-disable"
  }

  predicate DevicePairs(pairs: seq<(string, string)>) {
    && (forall i :: 0 <= i < |pairs| ==> DeviceKey(pairs[i].0))
    && (forall i, j :: 0 <= i < j < |pairs| ==> pairs[i].0 != pairs[j].0)
  }

  lemma KeyFacts(key: string)
    requires DeviceKey(key)
    ensures key != "" && '=' !in key && key[0] != 'n' && key in VALUE_FLAGS && key !in REMOVED_FLAGS && key != "__proto__"
  {
  }

  /** The flags themselves need no quotes. */
  lemma FlagUnquoted(key: string)
    requires DeviceKey(key)
    ensures S.ShellQuote("--" + key) == "--" + key
  {
    assert forall c :: c in "--" + key ==> S.Safe(c);
  }

  /** The shell splits the printed text into the flags and their values, whatever they are. */
  lemma {:induction false} PrintedWords(pairs: seq<(string, string)>)
    requires DevicePairs(pairs)
    ensures S.Words(Join(FlagTexts(pairs), " "), None, false) == Some(Argv(pairs))
  {
    QuotedArgv(pairs);
    S.CommandLineReadsBack(Argv(pairs));
  }

  /** What the shell hands over for a printed selection: the mode flag unless the mode is blank,
      the names that are on and those that are off, each list in order behind its own flag. */
  lemma PrintedArguments(selection: Resolved) returns (on: seq<string>, off: seq<string>)
    requires selection.Selection?
    ensures forall i, j :: 0 <= i < j < |on| ==> AtMost(on[i], on[j]) && on[i] != on[j]
    ensures forall i, j :: 0 <= i < j < |off| ==> AtMost(off[i], off[j]) && off[i] != off[j]
    ensures forall name :: name in on <==> name in selection.features && selection.features[name] == Yes
    ensures forall name :: name in off <==> name in selection.features && selection.features[name] == No
    ensures S.Words(Join(FlagTexts(Printed(selection)), " "), None, false)
            == Some((if selection.mode.Some? && selection.mode.value != "" then ["--device-mode", selection.mode.value] else [])
                    + (if on == [] then [] else ["--device-mode-enable", Join(on, ",")])
                    + (if off == [] then [] else ["--device-mode-disable", Join(off, ",")]))
  {
    hide S.Words, FlagTexts, Join, AtMost, Argv, PrintedList, DevicePairs, Named;
    on := ListArgv("device-mode-enable", Named(selection.features, Yes));
    off := ListArgv("device-mode-disable", Named(selection.features, No));
    PrintedPairs(selection);
    PrintedWords(Printed(selection));
    var first := if selection.mode.Some? && selection.mode.value != "" then [("device-mode", selection.mode.value)] else [];
    var second := PrintedList("device-mode-enable", Named(selection.features, Yes));
    var third := PrintedList("device-mode-disable", Named(selection.features, No));
    assert Printed(selection) == first + second + third;
    ArgvInTwo(first + second, third);
    ArgvInTwo(first, second);
    ArgvOfOne("device-mode", if selection.mode.Some? then selection.mode.value else "");
    FlagNames();
    NamedAre(selection.features);
  }

  lemma NamedAre(features: map<string, Setting>)
    ensures forall name, setting :: name in Named(features, setting) <==> name in features && features[name] == setting
  {
  }

  lemma ListArgv(key: string, names: set<string>) returns (list: seq<string>)
    ensures Argv(PrintedList(key, names)) == if list == [] then [] else ["--" + key, Join(list, ",")]
    ensures forall i, j :: 0 <= i < j < |list| ==> AtMost(list[i], list[j]) && list[i] != list[j]
    ensures forall name :: name in list <==> name in names
  {
    hide Join, AtMost;
    list := Sorted(names);
    SomeName(list);
    ArgvOfOne(key, Join(list, ","));
  }

  lemma ArgvOfOne(key: string, value: string)
    ensures Argv([(key, value)]) == ["--" + key, value] && Argv([]) == []
  {
    assert [(key, value)][1..] == [];
  }

  lemma FlagNames()
    ensures "--" + "device-mode" == "--device-mode"
    ensures "--" + "device-mode-enable" == "--device-mode-enable"
    ensures "--" + "device-mode-disable" == "--device-mode-disable"
  {
  }

  lemma {:induction false} ArgvInTwo(a: seq<(string, string)>, b: seq<(string, string)>)
    ensures Argv(a + b) == Argv(a) + Argv(b)
  {
    if a == [] {
      assert a + b == b;
    } else {
      ArgvInTwo(a[1..], b);
      assert (a + b)[1..] == a[1..] + b;
    }
  }

  lemma {:induction false} QuotedArgv(pairs: seq<(string, string)>)
    requires DevicePairs(pairs)
    ensures Join(FlagTexts(pairs), " ") == Join(S.QuoteAll(Argv(pairs)), " ")
  {
    hide S.ShellQuote, S.QuoteAll, Join, DeviceKey;
    if pairs != [] {
      var flag, value, rest := "--" + pairs[0].0, S.ShellQuote(pairs[0].1), S.QuoteAll(Argv(pairs[1..]));
      QuotedArgv(pairs[1..]);
      FlagUnquoted(pairs[0].0);
      QuoteTwo("--" + pairs[0].0, pairs[0].1, Argv(pairs[1..]));
      JoinOne(flag + " " + value, FlagTexts(pairs[1..]));
      JoinTwo(flag, value, rest);
      SameEnds(pairs[1..]);
    } else {
      SameEnds(pairs);
    }
  }

  lemma QuoteTwo(first: string, second: string, rest: seq<string>)
    ensures S.QuoteAll([first, second] + rest) == [S.ShellQuote(first), S.ShellQuote(second)] + S.QuoteAll(rest)
  {
    hide S.ShellQuote;
    var all := [first, second] + rest;
    assert all[1..] == [second] + rest;
    assert all[1..][1..] == rest;
  }

  lemma JoinOne(first: string, rest: seq<string>)
    ensures Join([first] + rest, " ") == if rest == [] then first else first + " " + Join(rest, " ")
  {
    assert ([first] + rest)[1..] == rest;
  }

  lemma JoinTwo(first: string, second: string, rest: seq<string>)
    ensures Join([first, second] + rest, " ")
            == if rest == [] then first + " " + second else first + " " + second + " " + Join(rest, " ")
  {
    var all := [first, second] + rest;
    assert all[1..] == [second] + rest;
    assert all[1..][1..] == rest;
  }

  lemma SameEnds(pairs: seq<(string, string)>)
    ensures FlagTexts(pairs) == [] <==> pairs == []
    ensures S.QuoteAll(Argv(pairs)) == [] <==> pairs == []
  {
  }

  // ---- Parsing the arguments -------------------------------------------------------------

  lemma FlagArg(key: string)
    requires DeviceKey(key)
    ensures key != "" && IndexOf(key, "=").None? && !("no-" <= key) && key !in REMOVED_FLAGS && key in VALUE_FLAGS
    ensures key != "__proto__"
  {
    KeyFacts(key);
    hide DeviceKey, VALUE_FLAGS, REMOVED_FLAGS;
    IndexOfAbsent(key, '=');
    assert "no-"[0] == 'n';
  }

  /** A flag takes a value that does not start with two dashes. */
  lemma TakesValue(key: string, value: string, rest: seq<string>, flags: Flags, positional: seq<string>)
    requires DeviceKey(key) && !("--" <= value)
    ensures Parse(["--" + key, value] + rest, VALUE_FLAGS, flags, positional)
            == Parse(rest, VALUE_FLAGS, Append(flags, key, value), positional)
  {
    FlagArg(key);
    FlagThenValue(key, value, rest, VALUE_FLAGS, flags, positional);
  }

  /** Before anything else it is only switched on. */
  lemma TakesNothing(key: string, value: string, rest: seq<string>, flags: Flags, positional: seq<string>)
    requires DeviceKey(key) && "--" <= value
    ensures Parse(["--" + key, value] + rest, VALUE_FLAGS, flags, positional)
            == Parse([value] + rest, VALUE_FLAGS, flags[key := Given(true)], positional)
  {
    FlagArg(key);
    FlagThenValue(key, value, rest, VALUE_FLAGS, flags, positional);
  }

  /** What an argument with two dashes does when no value follows it. */
  function DashEffect(arg: string, flags: Flags): Flags
    requires "--" <= arg
  {
    var body := arg[2..];
    match IndexOf(body, "=")
    case Some(eq) =>
      IndexInside(body, "=");
      Append(flags, body[..eq], body[eq + 1..])
    case None =>
      if "no-" <= body then Assign(flags, body[3..], Given(false)) else Assign(flags, body, Given(true))
  }

  lemma DashArg(arg: string, rest: seq<string>, flags: Flags, positional: seq<string>)
    requires "--" <= arg && arg != "--" && (rest == [] || "--" <= rest[0])
    ensures var parsed := Parse([arg] + rest, VALUE_FLAGS, flags, positional);
            parsed.Removed? || parsed == Parse(rest, VALUE_FLAGS, DashEffect(arg, flags), positional)
  {
    var argv := [arg] + rest;
    assert argv[1..] == rest;
  }

  /** The printed value of a flag has been lost: at best a shorter one took its place. */
  predicate Lost(flags: Flags, key: string, value: string) {
    key in flags && (flags[key].Given? || (flags[key].One? && value == "--" + key + "=" + flags[key].text))
  }

  lemma DashLoses(key: string, value: string, flags: Flags)
    requires key != "__proto__" && "--" <= value && key in flags && flags[key] == Given(true)
    ensures Lost(DashEffect(value, flags), key, value)
  {
    var body := value[2..];
    if IndexOf(body, "=").Some? {
      var eq := IndexOf(body, "=").value;
      AtEquals(value, eq);
      AppendToGiven(flags, key, body[..eq], body[eq + 1..]);
    }
  }

  lemma AtEquals(value: string, eq: nat)
    requires "--" <= value && IndexOf(value[2..], "=") == Some(eq)
    ensures eq < |value[2..]| && value == "--" + value[2..][..eq] + "=" + value[2..][eq + 1..]
  {
    var body := value[2..];
    IndexInside(body, "=");
    assert body == body[..eq] + body[eq..eq + 1] + body[eq + 1..];
    assert value == "--" + body;
  }

  predicate Plain(pairs: seq<(string, string)>) {
    forall i :: 0 <= i < |pairs| ==> !("--" <= pairs[i].1)
  }

  /** Plain values: parsing succeeds and leaves every other flag alone. */
  lemma {:induction false} PlainKeeps(pairs: seq<(string, string)>, flags: Flags, positional: seq<string>, key: string)
    requires DevicePairs(pairs) && Plain(pairs)
    requires forall i :: 0 <= i < |pairs| ==> pairs[i].0 != key
    ensures var parsed := Parse(Argv(pairs), VALUE_FLAGS, flags, positional);
            && parsed.Parsed?
            && (key in parsed.flags <==> key in flags)
            && (key in flags ==> parsed.flags[key] == flags[key])
  {
    if pairs != [] {
      TakesValue(pairs[0].0, pairs[0].1, Argv(pairs[1..]), flags, positional);
      PlainKeeps(pairs[1..], Append(flags, pairs[0].0, pairs[0].1), positional, key);
    }
  }

  /** And every printed flag gets its printed value. */
  lemma {:induction false} PlainSets(pairs: seq<(string, string)>, flags: Flags, positional: seq<string>, i: nat)
    requires DevicePairs(pairs) && Plain(pairs) && i < |pairs| && pairs[i].0 !in flags
    ensures var parsed := Parse(Argv(pairs), VALUE_FLAGS, flags, positional);
            parsed.Parsed? && pairs[i].0 in parsed.flags && parsed.flags[pairs[i].0] == One(pairs[i].1)
  {
    var after := Append(flags, pairs[0].0, pairs[0].1);
    TakesValue(pairs[0].0, pairs[0].1, Argv(pairs[1..]), flags, positional);
    if i == 0 {
      KeyFacts(pairs[0].0);
      PlainKeeps(pairs[1..], after, positional, pairs[0].0);
    } else {
      PlainSets(pairs[1..], after, positional, i - 1);
    }
  }

  ghost predicate SomeLost(pairs: seq<(string, string)>, parsed: Parsed) {
    || parsed.Removed?
    || exists i :: 0 <= i < |pairs| && "--" <= pairs[i].1 && Lost(parsed.flags, pairs[i].0, pairs[i].1)
  }

  /** A value with two dashes in front: parsing fails, or a value is lost. */
  lemma {:induction false} DashedLoses(pairs: seq<(string, string)>, flags: Flags, positional: seq<string>)
    requires DevicePairs(pairs) && !Plain(pairs)
    ensures SomeLost(pairs, Parse(Argv(pairs), VALUE_FLAGS, flags, positional))
  {
    hide Append, DashEffect;
    var key, value, tail := pairs[0].0, pairs[0].1, pairs[1..];
    var parsed := Parse(Argv(pairs), VALUE_FLAGS, flags, positional);
    if "--" <= value {
      TakesNothing(key, value, Argv(tail), flags, positional);
      var on := flags[key := Given(true)];
      if value == "--" {
        assert parsed.Parsed? && parsed.flags == on;
        assert Lost(parsed.flags, pairs[0].0, pairs[0].1);
      } else {
        TailStartsWithFlag(tail);
        DashArg(value, Argv(tail), on, positional);
        if parsed.Parsed? {
          KeyFacts(key);
          DashLoses(key, value, on);
          if Plain(tail) {
            PlainKeeps(tail, DashEffect(value, on), positional, key);
            assert Lost(parsed.flags, pairs[0].0, pairs[0].1);
          } else {
            DashedLoses(tail, DashEffect(value, on), positional);
            LaterLost(pairs, parsed);
          }
        }
      }
    } else {
      TakesValue(key, value, Argv(tail), flags, positional);
      DashedLoses(tail, Append(flags, key, value), positional);
      LaterLost(pairs, parsed);
    }
  }

  lemma TailStartsWithFlag(pairs: seq<(string, string)>)
    ensures Argv(pairs) == [] || "--" <= Argv(pairs)[0]
  {
  }

  lemma LaterLost(pairs: seq<(string, string)>, parsed: Parsed)
    requires pairs != [] && SomeLost(pairs[1..], parsed)
    ensures SomeLost(pairs, parsed)
  {
    if parsed.Parsed? {
      var i :| 0 <= i < |pairs[1..]| && "--" <= pairs[1..][i].1 && Lost(parsed.flags, pairs[1..][i].0, pairs[1..][i].1);
      assert pairs[i + 1] == pairs[1..][i];
    }
  }

  // ---- From the flags to the selection ---------------------------------------------------

  /** A printed list is read back as its names. */
  lemma PrintedListReadsBack(names: set<string>)
    requires names != {} && forall n :: n in names ==> Clean(n)
    ensures NamesIn(CsvList([Join(Sorted(names), ",")])) == names
  {
    var sorted := Sorted(names);
    var read := CsvList([Join(sorted, ",")]);
    SplitJoin(sorted, ',');
    assert Pieces([Join(sorted, ",")]) == sorted;
    NamesOfClean(read);
    forall n
      ensures n in read <==> n in names
    {
      assert n in sorted ==> Trim(n) == n;
    }
  }

  /** What is left of a printed list after its flag names itself no longer has its first name. */
  lemma LostListMissesFirst(key: string, names: set<string>, text: string)
    requires names != {} && forall n :: n in names ==> Clean(n)
    requires DeviceKey(key) && Join(Sorted(names), ",") == "--" + key + "=" + text
    ensures Sorted(names)[0] !in NamesIn(CsvList([text]))
  {
    hide NamesIn, CsvList, Join;
    var sorted := Sorted(names);
    var first, prefix := sorted[0], "--" + key + "=";
    assert first in sorted;
    PrefixInFirst(sorted, prefix, text);
    TailNames(sorted);
    NormIsNormal(first[|prefix|..]);
    PiecesMiss([first[|prefix|..]] + sorted[1..], first, text);
  }

  lemma PiecesMiss(pieces: seq<string>, name: string, text: string)
    requires pieces != [] && text == Join(pieces, ",")
    requires forall p :: p in pieces ==> ',' !in p && Norm(p) != name
    ensures name !in NamesIn(CsvList([text]))
  {
    SplitJoin(pieces, ',');
    assert Pieces([text]) == pieces;
    var read := CsvList([text]);
    forall t | t in read
      ensures ',' !in t && Norm(t) != name
    {
      var p :| p in pieces && Trim(p) == t;
      TrimPart(p);
      NormOfTrim(p);
    }
    PiecesOfPlain(read);
  }

  lemma PrefixInFirst(items: seq<string>, prefix: string, text: string)
    requires items != [] && Join(items, ",") == prefix + text && ',' !in prefix
    ensures prefix <= items[0] && text == Join([items[0][|prefix|..]] + items[1..], ",")
  {
    var joined, first := Join(items, ","), items[0];
    assert first <= joined;
    forall k | 0 <= k < |prefix|
      ensures prefix[k] != ',' && joined[k] != ','
    {
      assert prefix[k] in prefix;
    }
    assert |first| < |joined| ==> joined[|first|] == ',';
    assert |prefix| <= |first|;
    assert first == prefix + first[|prefix|..];
    var pieces := [first[|prefix|..]] + items[1..];
    assert pieces[1..] == items[1..];
    assert joined == prefix + Join(pieces, ",");
    assert joined[|prefix|..] == text;
  }

  /** The whole chain: the text through the shell, the parser, the reader and the resolver. */
  function Reread(text: string): Option<Resolved> {
    match S.Words(text, None, false)
    case None => None
    case Some(argv) =>
      match Parse(argv, VALUE_FLAGS, map[], [])
      case Removed(_) => None
      case Parsed(flags, _) => Some(Resolve(DeviceModeFromFlags(flags)))
  }

  lemma PrintedPairs(selection: Resolved)
    ensures DevicePairs(Printed(selection))
  {
    if selection.Selection? {
      ThreePairs(if selection.mode.Some? && selection.mode.value != "" then [("device-mode", selection.mode.value)] else [],
                 PrintedList("device-mode-enable", Named(selection.features, Yes)),
                 PrintedList("device-mode-disable", Named(selection.features, No)));
    }
  }

  lemma ThreePairs(a: seq<(string, string)>, b: seq<(string, string)>, c: seq<(string, string)>)
    requires |a| <= 1 && |b| <= 1 && |c| <= 1
    requires a != [] ==> a[0].0 == "device-mode"
    requires b != [] ==> b[0].0 == "device-mode-enable"
    requires c != [] ==> c[0].0 == "device-mode-disable"
    ensures DevicePairs(a + b + c)
  {
    assert |"device-mode"| == 11 && |"device-mode-enable"| == 18 && |"device-mode-disable"| == 19;
  }

  /** What the reader and the resolver make of flags that were not negated. */
  lemma ResolvedFlags(flags: Flags)
    ensures var resolved := Resolve(DeviceModeFromFlags(flags));
            resolved.Selection? ==>
              && resolved.features == Features(NamesIn(CsvList(FlagList(flags, "device-mode-enable"))),
                                               NamesIn(CsvList(FlagList(flags, "device-mode-disable"))))
              && resolved.mode == Some(ModeFor(Norm(if Flag(flags, "device-mode").Some? then Flag(flags, "device-mode").value
                                                    else "auto")))
  {
    hide Norm, NamesIn, CsvList, Features, ModeFor;
    SkipIsSkip();
  }

  lemma SkipIsSkip()
    ensures Norm("skip") == "skip"
  {
    SmallIsNormal("skip");
  }

  /** A lost mode does not come back. */
  lemma LostModeDiffers(flags: Flags, mode: string)
    requires "--" <= mode && Lost(flags, "device-mode", mode)
    ensures Resolve(DeviceModeFromFlags(flags)).Selection? ==> Resolve(DeviceModeFromFlags(flags)).mode != Some(mode)
  {
    ResolvedFlags(flags);
    WordsAreNormal();
    assert mode[0] == '-';
    if flags["device-mode"].One? {
      NormIsNormal(flags["device-mode"].text);
    }
  }

  /** Nor does the first name of a lost list. */
  lemma LostListDiffers(flags: Flags, key: string, setting: Setting, features: map<string, Setting>)
    requires key == if setting == Yes then "device-mode-enable" else "device-mode-disable"
    requires Named(features, setting) != {} && forall n :: n in features ==> Clean(n)
    requires Lost(flags, key, Join(Sorted(Named(features, setting)), ","))
    ensures Resolve(DeviceModeFromFlags(flags)).Selection? ==> Resolve(DeviceModeFromFlags(flags)).features != features
  {
    var names := Named(features, setting);
    var first := Sorted(names)[0];
    assert first in Sorted(names);
    ResolvedFlags(flags);
    if flags[key].One? {
      LostListMissesFirst(key, names, flags[key].text);
    } else {
      assert NamesIn(CsvList([])) == {};
    }
    assert first in features && features[first] == setting;
  }

  /** Printed in full, with a mode and plain values, a selection comes back. */
  lemma PlainReadsBack(selection: Resolved)
    requires Settled(selection) && Plain(Printed(selection))
    ensures var parsed := Parse(Argv(Printed(selection)), VALUE_FLAGS, map[], []);
            && parsed.Parsed?
            && (Resolve(DeviceModeFromFlags(parsed.flags)) == selection <==> selection.mode != Some(""))
  {
    hide Parse, Resolve, DeviceModeFromFlags, Settled, Plain, DevicePairs, NamesIn, CsvList, FlagList;
    SettledMode(selection);
    var pairs := Printed(selection);
    PrintedPairs(selection);
    PlainKeeps(pairs, map[], [], "");
    var flags := Parse(Argv(pairs), VALUE_FLAGS, map[], []).flags;
    ListReadsBack(selection, "device-mode-enable", Yes, flags);
    ListReadsBack(selection, "device-mode-disable", No, flags);
    ModeReadsBack(selection, flags);
    FlagsGiveSelection(selection, flags);
  }

  lemma ModeReadsBack(selection: Resolved, flags: Flags)
    requires Settled(selection) && Plain(Printed(selection))
    requires Parse(Argv(Printed(selection)), VALUE_FLAGS, map[], []).Parsed?
    requires flags == Parse(Argv(Printed(selection)), VALUE_FLAGS, map[], []).flags
    ensures if selection.mode == Some("") then "device-mode" !in flags
            else "device-mode" in flags && flags["device-mode"] == One(selection.mode.value)
  {
    hide Parse, Clean, Norm;
    var pairs := Printed(selection);
    PrintedPairs(selection);
    if selection.mode == Some("") {
      PlainKeeps(pairs, map[], [], "device-mode");
    } else {
      assert pairs[0] == ("device-mode", selection.mode.value);
      PlainSets(pairs, map[], [], 0);
    }
  }

  lemma FlagsGiveSelection(selection: Resolved, flags: Flags)
    requires Settled(selection)
    requires NamesIn(CsvList(FlagList(flags, "device-mode-enable"))) == Named(selection.features, Yes)
    requires NamesIn(CsvList(FlagList(flags, "device-mode-disable"))) == Named(selection.features, No)
    requires if selection.mode == Some("") then "device-mode" !in flags
             else "device-mode" in flags && flags["device-mode"] == One(selection.mode.value)
    ensures Resolve(DeviceModeFromFlags(flags)) == selection <==> selection.mode != Some("")
  {
    hide NamesIn, CsvList, FlagList, Norm, Features, Clean;
    ResolvedFlags(flags);
    if selection.mode == Some("") {
      WordsAreNormal();
    } else {
      var enable := CsvList(FlagList(flags, "device-mode-enable"));
      var disable := CsvList(FlagList(flags, "device-mode-disable"));
      NothingNamed();
      ResolveAgain(selection, if enable != [] then Some(enable) else None, if disable != [] then Some(disable) else None);
    }
  }

  lemma NothingNamed()
    ensures NamesIn([]) == {}
  {
  }

  lemma NothingListed()
    ensures NamesIn(CsvList([])) == {}
  {
  }

  lemma ListReadsBack(selection: Resolved, key: string, setting: Setting, flags: Flags)
    requires Settled(selection) && Plain(Printed(selection))
    requires key == if setting == Yes then "device-mode-enable" else "device-mode-disable"
    requires Parse(Argv(Printed(selection)), VALUE_FLAGS, map[], []).Parsed?
    requires flags == Parse(Argv(Printed(selection)), VALUE_FLAGS, map[], []).flags
    ensures NamesIn(CsvList(FlagList(flags, key))) == Named(selection.features, setting)
  {
    hide Parse, Norm, NamesIn, CsvList, Join;
    var pairs, names := Printed(selection), Named(selection.features, setting);
    PrintedPairs(selection);
    if names == {} {
      PlainKeeps(pairs, map[], [], key);
      NothingListed();
    } else {
      var i := if selection.mode.value != "" then 1 else 0;
      if setting == No && Named(selection.features, Yes) != {} {
        i := i + 1;
      }
      assert pairs[i] == (key, Join(Sorted(names), ","));
      PlainSets(pairs, map[], [], i);
      PrintedListReadsBack(names);
    }
  }

  lemma DashedDiffers(selection: Resolved)
    requires Settled(selection) && !Plain(Printed(selection))
    ensures var parsed := Parse(Argv(Printed(selection)), VALUE_FLAGS, map[], []);
            parsed.Parsed? ==> Resolve(DeviceModeFromFlags(parsed.flags)) != selection
  {
    var pairs := Printed(selection);
    var parsed := Parse(Argv(pairs), VALUE_FLAGS, map[], []);
    PrintedPairs(selection);
    DashedLoses(pairs, map[], []);
    if parsed.Parsed? {
      var i :| 0 <= i < |pairs| && "--" <= pairs[i].1 && Lost(parsed.flags, pairs[i].0, pairs[i].1);
      LostDiffers(selection, pairs[i], parsed.flags);
    }
  }

  lemma LostDiffers(selection: Resolved, pair: (string, string), flags: Flags)
    requires Settled(selection) && pair in Printed(selection) && "--" <= pair.1 && Lost(flags, pair.0, pair.1)
    ensures Resolve(DeviceModeFromFlags(flags)) != selection
  {
    if pair in PrintedList("device-mode-enable", Named(selection.features, Yes)) {
      LostListDiffers(flags, "device-mode-enable", Yes, selection.features);
    } else if pair in PrintedList("device-mode-disable", Named(selection.features, No)) {
      LostListDiffers(flags, "device-mode-disable", No, selection.features);
    } else {
      LostModeDiffers(flags, selection.mode.value);
    }
  }

  /** The printed command reproduces the selection exactly when the mode is not blank and no
      printed value starts with two dashes; a skipped selection prints nothing and comes back
      as skipped. */
  lemma PrintedSelectionReadsBack(options: Option<Options>)
    ensures var selection := Resolve(options);
            Reread(Join(FlagTexts(Printed(selection)), " ")) == Some(selection)
            <==> selection.Skip? || (selection.mode != Some("") && Plain(Printed(selection)))
  {
    SelectionReadsBack(options, Resolve(options));
  }

  lemma SelectionReadsBack(options: Option<Options>, selection: Resolved)
    requires selection == Resolve(options)
    ensures Reread(Join(FlagTexts(Printed(selection)), " ")) == Some(selection)
            <==> selection.Skip? || (selection.mode != Some("") && Plain(Printed(selection)))
  {
    ResolvedIsSettled(options);
    PrintedPairs(selection);
    PrintedWords(Printed(selection));
    RereadArgv(Join(FlagTexts(Printed(selection)), " "), Argv(Printed(selection)));
    if selection.Skip? {
      SkipReadsBack();
    } else if Plain(Printed(selection)) {
      hide Parse, Settled, Resolve, Printed, Plain, Reread;
      PlainReadsBack(selection);
    } else {
      hide Parse, Settled, Resolve, Printed, Plain, Reread;
      DashedDiffers(selection);
    }
  }

  lemma RereadArgv(text: string, argv: seq<string>)
    requires S.Words(text, None, false) == Some(argv)
    ensures var parsed := Parse(argv, VALUE_FLAGS, map[], []);
            Reread(text) == if parsed.Removed? then None else Some(Resolve(DeviceModeFromFlags(parsed.flags)))
  {
    hide S.Words, Parse, Resolve, DeviceModeFromFlags;
  }

  lemma SkipReadsBack()
    ensures var parsed := Parse(Argv(Printed(Skip)), VALUE_FLAGS, map[], []);
            parsed.Parsed? && Resolve(DeviceModeFromFlags(parsed.flags)) == Skip
  {
    assert Argv(Printed(Skip)) == [];
    assert CsvList([]) == [];
  }

  /** A feature `--x` is printed, and comes back as nothing. */
  lemma DashedFeatureIsLost()
    ensures var selection := Resolve(Some(Options(Some("rose"), Some(["--x"]), None)));
            && selection == Selection(Some("rose"), map["--x" := Yes])
            && Reread(Join(FlagTexts(Printed(selection)), " ")) == Some(Selection(Some("rose"), map[]))
  {
    hide Parse, Norm, Trim, S.Words, Resolve, Reread;
    SmallIsNormal("--x");
    WordsAreNormal();
    OneFeature("rose", "--x");
    var selection := Selection(Some("rose"), map["--x" := Yes]);
    var pairs := [("device-mode", "rose"), ("device-mode-enable", "--x")];
    DashedFeaturePrinted();
    PrintedPairs(selection);
    PrintedWords(pairs);
    RereadArgv(Join(FlagTexts(pairs), " "), Argv(pairs));
    DashedFeatureParsed();
    OnlyTheMode(map["device-mode" := One("rose"), "device-mode-enable" := Given(true), "x" := Given(true)]);
  }

  lemma DashedFeaturePrinted()
    ensures Printed(Selection(Some("rose"), map["--x" := Yes])) == [("device-mode", "rose"), ("device-mode-enable", "--x")]
  {
    var features := map["--x" := Yes];
    assert Named(features, Yes) == {"--x"} && Named(features, No) == {};
    OrderedUnique(Sorted({"--x"}), ["--x"]);
  }

  lemma DashedFeatureParsed()
    ensures Parse(Argv([("device-mode", "rose"), ("device-mode-enable", "--x")]), VALUE_FLAGS, map[], [])
            == Parsed(map["device-mode" := One("rose"), "device-mode-enable" := Given(true), "x" := Given(true)], [])
  {
    hide Parse;
    var second := [("device-mode-enable", "--x")];
    var pairs := [("device-mode", "rose")] + second;
    assert pairs[1..] == second && second[1..] == [];
    assert Argv(second) == ["--" + "device-mode-enable", "--x"] + [];
    assert Argv(pairs) == ["--" + "device-mode", "rose"] + Argv(second);
    assert "rose"[0] != '-';
    TakesValue("device-mode", "rose", Argv(second), map[], []);
    var flags := map["device-mode" := One("rose")];
    TakesNothing("device-mode-enable", "--x", [], flags, []);
    LastDash(flags["device-mode-enable" := Given(true)]);
    assert pairs == [("device-mode", "rose"), ("device-mode-enable", "--x")];
  }

  lemma LastDash(flags: Flags)
    ensures Parse(["--x"] + [], VALUE_FLAGS, flags, []) == Parsed(flags["x" := Given(true)], [])
  {
    var argv := ["--x"] + [];
    assert argv[0][2..] == "x" && argv[1..] == [];
    IndexOfAbsent("x", '=');
    assert !("no-" <= "x") && "x" !in REMOVED_FLAGS && "x" != "__proto__";
  }

  lemma OnlyTheMode(flags: Flags)
    requires flags == map["device-mode" := One("rose"), "device-mode-enable" := Given(true), "x" := Given(true)]
    ensures Resolve(DeviceModeFromFlags(flags)) == Selection(Some("rose"), map[])
  {
    hide Norm, Resolve, DeviceModeFromFlags;
    ModeOnly(flags);
    WordsAreNormal();
    ModeAlone("rose");
  }

  lemma ModeOnly(flags: Flags)
    requires flags == map["device-mode" := One("rose"), "device-mode-enable" := Given(true), "x" := Given(true)]
    ensures DeviceModeFromFlags(flags) == Some(Options(Some("rose"), None, None))
  {
    assert Pieces([]) == [];
    hide Trim;
    assert CsvList([]) == [];
  }
}
