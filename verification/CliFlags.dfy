/** The command line's flag parser and the readers of its result. */
module CliFlags {
  import opened Prelude
  import opened Text
  import opened Names
  import opened DeviceMode

  const VALUE_FLAGS: set<string> := {
    "version", "channel", "arch", "name", "cpu", "mem", "accel",
    "add-package", "port-base", "forward",
    "add-network",
    "boot-disk-format", "boot-size", "add-disk",
    "device-mode", "device-mode-enable", "device-mode-disable",
    "add-user", "timeout-extra",
    "license-level", "license-account", "license-password",
    "qemu-arg",
    "via", "user", "password", "timeout", "path", "data", "script",
    "account", "level", "package",
    "mode", "port", "group",
    "shell", "lines",
    "older-than", "max-age", "max-size"
  }

  const REMOVED_FLAGS: set<string> := {"vmnet-shared", "vmnet-bridge", "install-deps"}

  datatype Value = One(text: string) | Many(texts: seq<string>) | Given(on: bool)

  type Flags = map<string, Value>

  /** A removed flag stops the parser with an error. */
  datatype Parsed = Removed(key: string) | Parsed(flags: Flags, positional: seq<string>)

  /** Repeats of a flag accumulate. */
  function Append(flags: Flags, key: string, value: string): Flags {
    if key in flags && flags[key].Many? then flags[key := Many(flags[key].texts + [value])]
    else if key in flags && flags[key].One? then flags[key := Many([flags[key].text, value])]
    else Assign(flags, key, One(value))
  }

  /** Parsing the remaining arguments. */
  function Parse(argv: seq<string>, valueFlags: set<string>, flags: Flags, positional: seq<string>): Parsed {
    if argv == [] then Parsed(flags, positional)
    else if argv[0] == "--" then Parsed(flags, positional + argv[1..])
    else if "--" <= argv[0] then
      var body := argv[0][2..];
      match IndexOf(body, "=")
      case Some(eq) =>
        IndexInside(body, "=");
        if body[..eq] in REMOVED_FLAGS then Removed(body[..eq])
        else Parse(argv[1..], valueFlags, Append(flags, body[..eq], body[eq + 1..]), positional)
      case None =>
        if "no-" <= body then
          if body[3..] in REMOVED_FLAGS then Removed(body[3..])
          else Parse(argv[1..], valueFlags, Assign(flags, body[3..], Given(false)), positional)
        else if body in REMOVED_FLAGS then Removed(body)
        else if body in valueFlags && |argv| > 1 && !("--" <= argv[1]) then
          Parse(argv[2..], valueFlags, Append(flags, body, argv[1]), positional)
        else Parse(argv[1..], valueFlags, Assign(flags, body, Given(true)), positional)
    else Parse(argv[1..], valueFlags, flags, positional + [argv[0]])
  }

  /** A value flag takes the next argument as its value, unless that starts with two dashes. */
  lemma FlagThenValue(key: string, value: string, rest: seq<string>, valueFlags: set<string>, flags: Flags,
                      positional: seq<string>)
    requires key != "" && IndexOf(key, "=").None? && !("no-" <= key) && key !in REMOVED_FLAGS && key in valueFlags
    ensures Parse(["--" + key, value] + rest, valueFlags, flags, positional)
            == if "--" <= value then Parse([value] + rest, valueFlags, Assign(flags, key, Given(true)), positional)
               else Parse(rest, valueFlags, Append(flags, key, value), positional)
  {
    var arg := "--" + key;
    var argv := [arg, value] + rest;
    assert "--" <= arg && arg != "--" && arg[2..] == key;
    assert argv[0] == arg && argv[1] == value && argv[1..] == [value] + rest && argv[2..] == rest;
  }

  /** Appending a value to a flag that was only switched on replaces it; other flags stay. */
  lemma AppendToGiven(flags: Flags, key: string, appended: string, value: string)
    requires key in flags && flags[key].Given? && key != "__proto__"
    ensures var after := Append(flags, appended, value);
            key in after && after[key] == if appended == key then One(value) else flags[key]
  {
  }

  /** `--flag=value` and `--flag value` are the same. */
  lemma BothSpellings(key: string, value: string, rest: seq<string>, valueFlags: set<string>, flags: Flags,
                      positional: seq<string>)
    requires key != "" && '=' !in key && !("no-" <= key) && key in valueFlags && !("--" <= value)
    ensures Parse(["--" + key + "=" + value] + rest, valueFlags, flags, positional)
            == Parse(["--" + key, value] + rest, valueFlags, flags, positional)
  {
    IndexOfAbsent(key, '=');
    IndexOfFirst(key, '=', value);
    var arg := "--" + key + "=" + value;
    assert arg[2..] == key + "=" + value;
    assert (key + "=" + value)[..|key|] == key && (key + "=" + value)[|key| + 1..] == value;
    assert ([arg] + rest)[1..] == rest;
    if key !in REMOVED_FLAGS {
      FlagThenValue(key, value, rest, valueFlags, flags, positional);
    } else {
      assert ("--" + key)[2..] == key;
    }
  }

  /** A repeated flag keeps all its values, and its single-value reader sees the last. */
  lemma RepeatsAccumulate(flags: Flags, key: string, value: string)
    requires key != "__proto__"
    ensures FlagList(Append(flags, key, value), key) == FlagList(flags, key) + [value]
    ensures Flag(Append(flags, key, value), key) == Some(value)
    ensures forall other :: other != key ==> FlagList(Append(flags, key, value), other) == FlagList(flags, other)
  {
  }

  method ParseFlags(argv: seq<string>, valueFlags: set<string>) returns (parsed: Parsed)
    ensures parsed == Parse(argv, valueFlags, map[], [])
  {
    var flags: Flags := map[];
    var positional: seq<string> := [];
    var i := 0;
    while i < |argv|
      invariant i <= |argv|
      invariant Parse(argv[i..], valueFlags, flags, positional) == Parse(argv, valueFlags, map[], [])
    {
      var arg := argv[i];
      assert argv[i..][0] == arg && argv[i..][1..] == argv[i + 1..];
      if arg == "--" {
        return Parsed(flags, positional + argv[i + 1..]);
      }
      if "--" <= arg {
        var body := arg[2..];
        var eq := IndexOf(body, "=");
        if eq.Some? {
          IndexInside(body, "=");
          var key := body[..eq.value];
          if key in REMOVED_FLAGS {
            return Removed(key);
          }
          flags := Append(flags, key, body[eq.value + 1..]);
        } else if "no-" <= body {
          if body[3..] in REMOVED_FLAGS {
            return Removed(body[3..]);
          }
          flags := Assign(flags, body[3..], Given(false));
        } else {
          if body in REMOVED_FLAGS {
            return Removed(body);
          }
          if body in valueFlags && i + 1 < |argv| && !("--" <= argv[i + 1]) {
            assert argv[i..][1] == argv[i + 1] && argv[i..][2..] == argv[i + 2..];
            flags := Append(flags, body, argv[i + 1]);
            i := i + 1;
          } else {
            flags := Assign(flags, body, Given(true));
          }
        }
      } else {
        positional := positional + [arg];
      }
      i := i + 1;
    }
    return Parsed(flags, positional);
  }

  // ---- Readers ---------------------------------------------------------------------------

  /** A single-value flag: the last of its values. */
  function Flag(flags: Flags, key: string): Option<string> {
    if key !in flags then None
    else
      match flags[key]
      case One(text) => Some(text)
      case Many(texts) => if texts == [] then None else Some(texts[|texts| - 1])
      case Given(_) => None
  }

  function FlagList(flags: Flags, key: string): seq<string> {
    if key !in flags then []
    else
      match flags[key]
      case One(text) => [text]
      case Many(texts) => texts
      case Given(_) => []
  }

  function TrimmedPieces(pieces: seq<string>): (r: seq<string>)
    ensures forall t :: t in r <==> exists p :: p in pieces && Trim(p) == t && t != ""
  {
    if pieces == [] then []
    else
      assert pieces == [pieces[0]] + pieces[1..];
      (if Trim(pieces[0]) != "" then [Trim(pieces[0])] else []) + TrimmedPieces(pieces[1..])
  }

  /** The trimmed, nonempty pieces, the first of each of equal ones. */
  function CsvList(values: seq<string>): (r: seq<string>)
    ensures NoRepeats(r)
    ensures KeepsFirsts(TrimmedPieces(Pieces(values)), r)
    ensures forall t :: t in r <==> exists p :: p in Pieces(values) && Trim(p) == t && t != ""
  {
    DistinctKeepsFirsts(TrimmedPieces(Pieces(values)));
    Distinct(TrimmedPieces(Pieces(values)))
  }

  /** What the device-mode flags ask for, if anything. */
  function DeviceModeFromFlags(flags: Flags): Option<Options> {
    var mode := Flag(flags, "device-mode");
    var enable := CsvList(FlagList(flags, "device-mode-enable"));
    var disable := CsvList(FlagList(flags, "device-mode-disable"));
    if "device-mode" in flags && flags["device-mode"] == Given(false) then Some(Options(Some("skip"), None, None))
    else if mode.None? && enable == [] && disable == [] then None
    else
      Some(Options(Some(if mode.Some? then mode.value else "auto"),
                   if enable != [] then Some(enable) else None,
                   if disable != [] then Some(disable) else None))
  }

  // ---- What the arguments mean -----------------------------------------------------------

  /** `end` is where the flags end: at the first bare `--`, or behind the last argument. */
  predicate EndsAt(argv: seq<string>, end: nat) {
    end <= |argv| && "--" !in argv[..end] && (end < |argv| ==> argv[end] == "--")
  }

  /** Argument `i` is `--key` for a key that wants a value, and the next argument can be one. */
  predicate TakesNext(argv: seq<string>, valueFlags: set<string>, i: nat) {
    && i + 1 < |argv| && !("--" <= argv[i + 1])
    && "--" <= argv[i] && '=' !in argv[i] && !("--no-" <= argv[i]) && argv[i][2..] in valueFlags
  }

  predicate IsTaken(argv: seq<string>, valueFlags: set<string>, i: nat) {
    i > 0 && TakesNext(argv, valueFlags, i - 1)
  }

  /** The arguments from `i` to the end of the flags that are neither flags nor taken values. */
  function Words(argv: seq<string>, valueFlags: set<string>, i: nat, end: nat): seq<string>
    requires i <= end <= |argv|
    decreases end - i
  {
    if i == end then []
    else (if "--" <= argv[i] || IsTaken(argv, valueFlags, i) then [] else [argv[i]]) + Words(argv, valueFlags, i + 1, end)
  }

  /** What follows the bare `--`. */
  function Behind(argv: seq<string>, end: nat): seq<string> {
    if end < |argv| then argv[end + 1..] else []
  }

  /** `--key` without a value, or `--no-key`. */
  predicate IsSwitch(argv: seq<string>, valueFlags: set<string>, i: nat, key: string)
    requires i < |argv|
  {
    || argv[i] == "--no-" + key
    || (argv[i] == "--" + key && !("no-" <= key) && !TakesNext(argv, valueFlags, i))
  }

  /** The value argument `i` gives to `key`, behind an equals sign or as the next argument. */
  function ValueAt(argv: seq<string>, valueFlags: set<string>, i: nat, key: string): seq<string>
    requires i < |argv|
  {
    if ("--" + key + "=") <= argv[i] then [argv[i][|key| + 3..]]
    else if argv[i] == "--" + key && TakesNext(argv, valueFlags, i) then [argv[i + 1]]
    else []
  }

  /** All values given to `key` from argument `i` on. */
  function ValuesOf(argv: seq<string>, valueFlags: set<string>, i: nat, end: nat, key: string): seq<string>
    requires i <= end <= |argv|
    decreases end - i
  {
    if i == end then [] else ValueAt(argv, valueFlags, i, key) + ValuesOf(argv, valueFlags, i + 1, end, key)
  }

  /** A flag that is no longer there, whatever is said of it. */
  predicate NamesRemoved(arg: string) {
    exists key :: key in {"vmnet-shared", "vmnet-bridge", "install-deps"}
                  && (arg == "--" + key || arg == "--no-" + key || ("--" + key + "=") <= arg)
  }

  predicate SameAt(a: Flags, b: Flags, key: string) {
    (key in a <==> key in b) && (key in a ==> a[key] == b[key])
  }

  /** What is behind the two dashes of a flag, in the three ways to write one. */
  lemma Undashed(body: string, key: string)
    ensures "--" + body == "--" + key <==> body == key
    ensures "--" + body == "--no-" + key <==> "no-" <= body && body[3..] == key
    ensures ("--" + key + "=") <= "--" + body <==> (key + "=") <= body
    ensures (key + "=") <= body ==> ("--" + body)[|key| + 3..] == body[|key| + 1..]
  {
    assert ("--" + body)[2..] == body && ("--" + key)[2..] == key;
    if "--" + body == "--no-" + key {
      assert ("--no-" + key)[2..] == "no-" + key;
    }
    if "no-" <= body && body[3..] == key {
      assert body == "no-" + key;
    }
    var prefix := "--" + key + "=";
    assert prefix == "--" + (key + "=");
    if prefix <= "--" + body {
      assert ("--" + body)[..|prefix|] == prefix;
      assert body[..|key| + 1] == prefix[2..] == key + "=";
    }
  }

  /** The parser at a flag. */
  lemma AtFlag(argv: seq<string>, valueFlags: set<string>, i: nat, flags: Flags, positional: seq<string>)
    returns (key: string, read: Flags)
    requires i < |argv| && "--" <= argv[i] && argv[i] != "--"
    ensures '=' !in key
    ensures var next := if TakesNext(argv, valueFlags, i) then i + 2 else i + 1;
            Parse(argv[i..], valueFlags, flags, positional)
            == if key in REMOVED_FLAGS then Removed(key) else Parse(argv[next..], valueFlags, read, positional)
    ensures var arg := argv[i];
            || (exists value :: arg == "--" + key + "=" + value && read == Append(flags, key, value))
            || (arg == "--no-" + key && read == Assign(flags, key, Given(false)))
            || (arg == "--" + key && !("no-" <= key)
                && read == if TakesNext(argv, valueFlags, i) then Append(flags, key, argv[i + 1])
                           else Assign(flags, key, Given(true)))
  {
    hide Append, Assign, REMOVED_FLAGS;
    var arg := argv[i];
    var body := arg[2..];
    var rest := argv[i..];
    assert arg == "--" + body;
    assert rest[0] == arg && rest[1..] == argv[i + 1..];
    if i + 1 < |argv| {
      assert rest[1] == argv[i + 1] && rest[2..] == argv[i + 2..];
    }
    if IndexOf(body, "=").Some? {
      IndexInside(body, "=");
      FoundFirst(body, '=');
      var eq := IndexOf(body, "=").value;
      key, read := body[..eq], Append(flags, body[..eq], body[eq + 1..]);
      assert body[eq] == '=' && arg[eq + 2] == '=';
      assert arg == "--" + key + "=" + body[eq + 1..];
    } else {
      NotFound(body, '=');
      assert '=' !in arg;
      if "no-" <= body {
        key, read := body[3..], Assign(flags, body[3..], Given(false));
        assert arg == "--no-" + key;
      } else {
        assert !("--no-" <= arg);
        key := body;
        read := if TakesNext(argv, valueFlags, i) then Append(flags, body, argv[i + 1]) else Assign(flags, body, Given(true));
      }
    }
  }

  lemma PrefixKey(own: string, key: string, value: string)
    requires '=' !in own && '=' !in key
    ensures (key + "=") <= own + "=" + value <==> key == own
  {
    var body := own + "=" + value;
    if (key + "=") <= body {
      assert body[|key|] == '=' && body[|own|] == '=';
      assert |key| == |own|;
      assert body[..|key|] == key && body[..|own|] == own;
    }
  }

  /** Which of the ways to write a flag an argument shows, for a key without equals signs. */
  lemma WrittenAs(argv: seq<string>, valueFlags: set<string>, i: nat, own: string, key: string, value: string)
    requires i < |argv| && '=' !in own && '=' !in key
    ensures argv[i] == "--" + own + "=" + value ==>
              && !IsSwitch(argv, valueFlags, i, key) && !TakesNext(argv, valueFlags, i)
              && ValueAt(argv, valueFlags, i, key) == (if key == own then [value] else [])
    ensures argv[i] == "--no-" + own ==>
              && (IsSwitch(argv, valueFlags, i, key) <==> key == own) && ValueAt(argv, valueFlags, i, key) == []
    ensures argv[i] == "--" + own && !("no-" <= own) ==>
              && (IsSwitch(argv, valueFlags, i, key) <==> key == own && !TakesNext(argv, valueFlags, i))
              && ValueAt(argv, valueFlags, i, key)
                 == (if key == own && TakesNext(argv, valueFlags, i) then [argv[i + 1]] else [])
  {
    var arg := argv[i];
    if arg == "--" + own + "=" + value {
      var body := own + "=" + value;
      assert arg == "--" + body && body[|own|] == '=';
      Undashed(body, key);
      PrefixKey(own, key, value);
      assert body[|own| + 1..] == value;
    }
    if arg == "--no-" + own {
      Undashed("no-" + own, key);
      assert arg == "--" + ("no-" + own) && ("no-" + own)[3..] == own;
      assert (key + "=")[|key|] == '=';
    }
    if arg == "--" + own && !("no-" <= own) {
      Undashed(own, key);
      assert (key + "=")[|key|] == '=';
    }
  }

  lemma AppendSays(flags: Flags, own: string, value: string, key: string)
    requires key != "__proto__"
    ensures FlagList(Append(flags, own, value), key) == FlagList(flags, key) + (if key == own then [value] else [])
    ensures key != own ==> SameAt(Append(flags, own, value), flags, key)
  {
  }

  lemma SwitchSays(flags: Flags, own: string, on: bool, key: string)
    requires key != "__proto__"
    ensures var after := Assign(flags, own, Given(on));
            if key == own then FlagList(after, key) == [] && key in after && after[key] == Given(on)
            else FlagList(after, key) == FlagList(flags, key) + [] && SameAt(after, flags, key)
  {
  }

  lemma NextIsThere(argv: seq<string>, valueFlags: set<string>, i: nat)
    requires TakesNext(argv, valueFlags, i)
    ensures i + 1 < |argv|
  {
  }

  /** One flag read changes what the flag says of its key, and nothing else. */
  lemma OneFlag(argv: seq<string>, valueFlags: set<string>, i: nat, flags: Flags, positional: seq<string>, key: string)
    returns (read: Flags)
    requires i < |argv| && "--" <= argv[i] && argv[i] != "--" && '=' !in key && key != "__proto__"
    ensures var next := if TakesNext(argv, valueFlags, i) then i + 2 else i + 1;
            var parsed := Parse(argv[i..], valueFlags, flags, positional);
            parsed.Removed? || parsed == Parse(argv[next..], valueFlags, read, positional)
    ensures IsSwitch(argv, valueFlags, i, key) ==>
              FlagList(read, key) == [] && key in read && read[key] == Given(argv[i] == "--" + key)
    ensures !IsSwitch(argv, valueFlags, i, key) ==>
              && FlagList(read, key) == FlagList(flags, key) + ValueAt(argv, valueFlags, i, key)
              && (ValueAt(argv, valueFlags, i, key) == [] ==> SameAt(read, flags, key))
  {
    hide Parse, TakesNext, IsSwitch, ValueAt, REMOVED_FLAGS, Append, Assign, FlagList, SameAt;
    var own;
    own, read := AtFlag(argv, valueFlags, i, flags, positional);
    var arg := argv[i];
    if value :| arg == "--" + own + "=" + value && read == Append(flags, own, value) {
      WrittenAs(argv, valueFlags, i, own, key, value);
      AppendSays(flags, own, value, key);
    } else {
      WrittenAs(argv, valueFlags, i, own, key, "");
      assert "--no-" + own != "--" + own;
      SwitchSays(flags, own, arg == "--" + own, key);
      if TakesNext(argv, valueFlags, i) {
        NextIsThere(argv, valueFlags, i);
        AppendSays(flags, own, argv[i + 1], key);
      }
    }
  }

  lemma AtWord(argv: seq<string>, valueFlags: set<string>, i: nat, flags: Flags, positional: seq<string>)
    requires i < |argv| && !("--" <= argv[i])
    ensures Parse(argv[i..], valueFlags, flags, positional)
            == Parse(argv[i + 1..], valueFlags, flags, positional + [argv[i]])
  {
    assert argv[i..][0] == argv[i] && argv[i..][1..] == argv[i + 1..];
  }

  lemma AtEnd(argv: seq<string>, valueFlags: set<string>, end: nat, flags: Flags, positional: seq<string>)
    requires EndsAt(argv, end)
    ensures Parse(argv[end..], valueFlags, flags, positional) == Parsed(flags, positional + Behind(argv, end))
  {
    if end < |argv| {
      assert argv[end..][0] == "--" && argv[end..][1..] == argv[end + 1..];
    }
  }

  /** The parser from argument `i` on, which is not a taken value. */
  lemma {:induction false} WordsFrom(argv: seq<string>, valueFlags: set<string>, i: nat, end: nat, flags: Flags,
                                     positional: seq<string>)
    requires EndsAt(argv, end) && i <= end && !IsTaken(argv, valueFlags, i)
    ensures var parsed := Parse(argv[i..], valueFlags, flags, positional);
            parsed.Parsed? ==> parsed.positional == positional + Words(argv, valueFlags, i, end) + Behind(argv, end)
    decreases end - i
  {
    hide TakesNext, REMOVED_FLAGS, Parse, Words, Behind, Append, Assign;
    if i == end {
      AtEnd(argv, valueFlags, end, flags, positional);
      NoWords(argv, valueFlags, end);
    } else {
      assert argv[i] in argv[..end];
      if "--" <= argv[i] {
        var _, read := AtFlag(argv, valueFlags, i, flags, positional);
        var next := if TakesNext(argv, valueFlags, i) then i + 2 else i + 1;
        TakenIsNoFlag(argv, valueFlags, i, end);
        WordsFrom(argv, valueFlags, next, end, read, positional);
      } else {
        NoFlagTakesNothing(argv, valueFlags, i);
        AtWord(argv, valueFlags, i, flags, positional);
        WordsFrom(argv, valueFlags, i + 1, end, flags, positional + [argv[i]]);
        FirstWord(argv, valueFlags, i, end);
      }
    }
  }

  lemma NoWords(argv: seq<string>, valueFlags: set<string>, end: nat)
    requires end <= |argv|
    ensures Words(argv, valueFlags, end, end) == []
  {
  }

  lemma FirstWord(argv: seq<string>, valueFlags: set<string>, i: nat, end: nat)
    requires i < end <= |argv| && !("--" <= argv[i]) && !IsTaken(argv, valueFlags, i)
    ensures Words(argv, valueFlags, i, end) == [argv[i]] + Words(argv, valueFlags, i + 1, end)
  {
  }

  lemma NoFlagTakesNothing(argv: seq<string>, valueFlags: set<string>, i: nat)
    requires i < |argv| && !("--" <= argv[i])
    ensures !TakesNext(argv, valueFlags, i)
  {
  }

  /** What a flag takes lies before the end, takes nothing itself, and is not among the words. */
  lemma TakenIsNoFlag(argv: seq<string>, valueFlags: set<string>, i: nat, end: nat)
    requires EndsAt(argv, end) && i < end && "--" <= argv[i]
    ensures Words(argv, valueFlags, i, end) == Words(argv, valueFlags, i + 1, end)
    ensures TakesNext(argv, valueFlags, i) ==>
              && i + 2 <= end && !IsTaken(argv, valueFlags, i + 2) && !("--" <= argv[i + 1])
              && Words(argv, valueFlags, i, end) == Words(argv, valueFlags, i + 2, end)
    ensures !TakesNext(argv, valueFlags, i) ==> !IsTaken(argv, valueFlags, i + 1)
  {
  }

  /** The positional arguments are, in order, the arguments before the first bare `--` that are
      neither flags nor the values of flags, and then everything behind it. */
  lemma PositionalArguments(argv: seq<string>, valueFlags: set<string>, end: nat)
    requires EndsAt(argv, end)
    ensures var parsed := Parse(argv, valueFlags, map[], []);
            parsed.Parsed? ==> parsed.positional == Words(argv, valueFlags, 0, end) + Behind(argv, end)
  {
    WordsFrom(argv, valueFlags, 0, end, map[], []);
    assert argv[0..] == argv;
  }

  /** Words without two leading dashes, then `--`, then anything: no flags, and all the rest. */
  lemma {:induction false} BehindDashes(words: seq<string>, rest: seq<string>, valueFlags: set<string>, flags: Flags,
                                        positional: seq<string>)
    requires forall w :: w in words ==> !("--" <= w)
    ensures Parse(words + ["--"] + rest, valueFlags, flags, positional) == Parsed(flags, positional + words + rest)
    decreases |words|
  {
    var argv := words + ["--"] + rest;
    if words == [] {
      assert argv[1..] == rest;
    } else {
      assert forall w :: w in words[1..] ==> w in words;
      assert words[0] in words;
      assert argv[0] == words[0] && argv[1..] == words[1..] + ["--"] + rest;
      assert positional + words == positional + [words[0]] + words[1..];
      BehindDashes(words[1..], rest, valueFlags, flags, positional + [words[0]]);
    }
  }

  /** The parser stops with an error exactly when a flag that was removed is among the arguments
      before the first bare `--`, in any of its spellings. */
  lemma {:induction false} RemovedFrom(argv: seq<string>, valueFlags: set<string>, i: nat, end: nat, flags: Flags,
                                       positional: seq<string>)
    requires EndsAt(argv, end) && i <= end && !IsTaken(argv, valueFlags, i)
    ensures Parse(argv[i..], valueFlags, flags, positional).Removed?
            <==> exists j :: i <= j < end && NamesRemoved(argv[j])
    decreases end - i
  {
    hide TakesNext, Parse, NamesRemoved, Words;
    if i == end {
      AtEnd(argv, valueFlags, end, flags, positional);
    } else {
      assert argv[i] in argv[..end];
      if "--" <= argv[i] {
        var key, read := AtFlag(argv, valueFlags, i, flags, positional);
        RemovedOrNot(argv[i], key);
        var next := if TakesNext(argv, valueFlags, i) then i + 2 else i + 1;
        TakenIsNoFlag(argv, valueFlags, i, end);
        if next == i + 2 {
          WordIsNotRemoved(argv[i + 1]);
        }
        RemovedFrom(argv, valueFlags, next, end, read, positional);
        assert forall j :: i <= j < end && NamesRemoved(argv[j]) ==> j == i || j >= next || j == i + 1;
      } else {
        NoFlagTakesNothing(argv, valueFlags, i);
        WordIsNotRemoved(argv[i]);
        AtWord(argv, valueFlags, i, flags, positional);
        RemovedFrom(argv, valueFlags, i + 1, end, flags, positional + [argv[i]]);
      }
    }
  }

  lemma WordIsNotRemoved(arg: string)
    requires !("--" <= arg)
    ensures !NamesRemoved(arg)
  {
  }

  lemma OneKeyBehind(body: string, own: string, key: string)
    requires '=' !in own && '=' !in key && !("no-" <= key)
    requires (own + "=") <= body || ("no-" <= body && body[3..] == own) || (body == own && !("no-" <= own))
    ensures key == own <==> (body == key || ("no-" <= body && body[3..] == key) || (key + "=") <= body)
  {
    if (own + "=") <= body {
      PrefixKey(own, key, body[|own| + 1..]);
      assert body == own + "=" + body[|own| + 1..] && body[|own|] == '=';
    } else {
      assert (key + "=")[|key|] == '=';
    }
  }

  /** A flag written for one key is written for no other. */
  lemma OneKeyOnly(arg: string, own: string, key: string)
    requires '=' !in own && '=' !in key && !("no-" <= key)
    requires ("--" + own + "=") <= arg || arg == "--no-" + own || (arg == "--" + own && !("no-" <= own))
    ensures key == own <==> (arg == "--" + key || arg == "--no-" + key || ("--" + key + "=") <= arg)
  {
    var body := arg[2..];
    assert arg == "--" + body;
    Undashed(body, key);
    Undashed(body, own);
    OneKeyBehind(body, own, key);
  }

  lemma RemovedOrNot(arg: string, own: string)
    requires '=' !in own
    requires ("--" + own + "=") <= arg || arg == "--no-" + own || (arg == "--" + own && !("no-" <= own))
    ensures NamesRemoved(arg) <==> own in REMOVED_FLAGS
  {
    assert "no-"[0] == 'n' && "vmnet-shared"[0] == 'v' && "vmnet-bridge"[0] == 'v' && "install-deps"[0] == 'i';
    OneKeyOnly(arg, own, "vmnet-shared");
    OneKeyOnly(arg, own, "vmnet-bridge");
    OneKeyOnly(arg, own, "install-deps");
  }

  lemma RemovedExactly(argv: seq<string>, valueFlags: set<string>, end: nat)
    requires EndsAt(argv, end)
    ensures Parse(argv, valueFlags, map[], []).Removed? <==> exists i :: 0 <= i < end && NamesRemoved(argv[i])
  {
    RemovedFrom(argv, valueFlags, 0, end, map[], []);
    assert argv[0..] == argv;
  }

  lemma WordSaysNothing(argv: seq<string>, valueFlags: set<string>, i: nat, flags: Flags, key: string)
    requires i < |argv| && !("--" <= argv[i])
    ensures !IsSwitch(argv, valueFlags, i, key) && ValueAt(argv, valueFlags, i, key) == []
    ensures SameAt(flags, flags, key) && FlagList(flags, key) == FlagList(flags, key) + []
  {
  }

  lemma SwitchTakesNothing(argv: seq<string>, valueFlags: set<string>, i: nat, key: string)
    requires i < |argv| && IsSwitch(argv, valueFlags, i, key)
    ensures !TakesNext(argv, valueFlags, i)
  {
  }

  /** What the arguments from `i` on make of a key, when argument `last - 1` is its last switch. */
  ghost predicate SaidOf(argv: seq<string>, valueFlags: set<string>, i: nat, end: nat, key: string, last: nat,
                         before: Flags, after: Flags)
    requires i <= end <= |argv| && last <= end
  {
    if last <= i then
      && FlagList(after, key) == FlagList(before, key) + ValuesOf(argv, valueFlags, i, end, key)
      && (ValuesOf(argv, valueFlags, i, end, key) == [] ==> SameAt(after, before, key))
    else
      && FlagList(after, key) == ValuesOf(argv, valueFlags, last, end, key)
      && (ValuesOf(argv, valueFlags, last, end, key) == [] ==>
            key in after && after[key] == Given(argv[last - 1] == "--" + key))
  }

  /** One argument more. */
  lemma SaidBefore(argv: seq<string>, valueFlags: set<string>, i: nat, next: nat, end: nat, key: string, last: nat,
                   before: Flags, read: Flags, after: Flags)
    requires i < next <= end <= |argv| && last <= end && (next == i + 1 || next == i + 2)
    requires next == i + 2 ==> last != i + 1 && ValueAt(argv, valueFlags, i + 1, key) == []
    requires last != i + 1 ==> last <= i || next < last
    requires last == i + 1 ==> FlagList(read, key) == [] && key in read && read[key] == Given(argv[i] == "--" + key)
    requires last <= i ==>
               && FlagList(read, key) == FlagList(before, key) + ValueAt(argv, valueFlags, i, key)
               && (ValueAt(argv, valueFlags, i, key) == [] ==> SameAt(read, before, key))
    requires SaidOf(argv, valueFlags, next, end, key, last, read, after)
    ensures SaidOf(argv, valueFlags, i, end, key, last, before, after)
  {
    hide ValueAt, FlagList;
    if next == i + 2 {
      assert ValuesOf(argv, valueFlags, i + 1, end, key) == ValuesOf(argv, valueFlags, next, end, key);
    }
    if last <= i {
      var at, rest := ValueAt(argv, valueFlags, i, key), ValuesOf(argv, valueFlags, next, end, key);
      assert FlagList(before, key) + at + rest == FlagList(before, key) + (at + rest);
    }
  }

  lemma {:induction false} KeyFrom(argv: seq<string>, valueFlags: set<string>, i: nat, end: nat, flags: Flags,
                                   positional: seq<string>, key: string, last: nat)
    requires EndsAt(argv, end) && i <= end && !IsTaken(argv, valueFlags, i) && '=' !in key && key != "__proto__"
    requires last <= end && forall j :: last <= j < end ==> !IsSwitch(argv, valueFlags, j, key)
    requires i < last ==> IsSwitch(argv, valueFlags, last - 1, key)
    ensures var parsed := Parse(argv[i..], valueFlags, flags, positional);
            parsed.Parsed? ==> SaidOf(argv, valueFlags, i, end, key, last, flags, parsed.flags)
    decreases end - i
  {
    hide TakesNext, Parse, IsSwitch, ValueAt, SaidOf, Words, SameAt, FlagList;
    var parsed := Parse(argv[i..], valueFlags, flags, positional);
    if i == end {
      AtEnd(argv, valueFlags, end, flags, positional);
      NothingSaid(argv, valueFlags, end, key, last, flags);
    } else {
      assert argv[i] in argv[..end];
      assert i < last ==> 0 < last <= |argv|;
      if "--" <= argv[i] {
        var read := OneFlag(argv, valueFlags, i, flags, positional, key);
        var next := if TakesNext(argv, valueFlags, i) then i + 2 else i + 1;
        TakenIsNoFlag(argv, valueFlags, i, end);
        if next == i + 2 {
          WordSaysNothing(argv, valueFlags, i + 1, read, key);
        }
        if IsSwitch(argv, valueFlags, i, key) {
          SwitchTakesNothing(argv, valueFlags, i, key);
        }
        KeyFrom(argv, valueFlags, next, end, read, positional, key, last);
        if parsed.Parsed? {
          SaidBefore(argv, valueFlags, i, next, end, key, last, flags, read, parsed.flags);
        }
      } else {
        NoFlagTakesNothing(argv, valueFlags, i);
        WordSaysNothing(argv, valueFlags, i, flags, key);
        AtWord(argv, valueFlags, i, flags, positional);
        KeyFrom(argv, valueFlags, i + 1, end, flags, positional + [argv[i]], key, last);
        if parsed.Parsed? {
          SaidBefore(argv, valueFlags, i, i + 1, end, key, last, flags, flags, parsed.flags);
        }
      }
    }
  }

  lemma NothingSaid(argv: seq<string>, valueFlags: set<string>, end: nat, key: string, last: nat, flags: Flags)
    requires last <= end <= |argv|
    ensures SaidOf(argv, valueFlags, end, end, key, last, flags, flags)
  {
  }

  /** `end` ends the flags, and argument `last - 1`, if any, is the last switch of `key`. */
  predicate LastSwitch(argv: seq<string>, valueFlags: set<string>, end: nat, key: string, last: nat) {
    && EndsAt(argv, end) && last <= end
    && (forall j :: last <= j < end ==> !IsSwitch(argv, valueFlags, j, key))
    && (last > 0 ==> IsSwitch(argv, valueFlags, last - 1, key))
  }

  /** A key keeps, in order, the values given to it behind its last switch; with none, it is what
      that switch says, and it is not there at all when nothing mentions it. */
  lemma KeyMeans(argv: seq<string>, valueFlags: set<string>, end: nat, key: string, last: nat)
    requires LastSwitch(argv, valueFlags, end, key, last) && '=' !in key && key != "__proto__"
    ensures var parsed := Parse(argv, valueFlags, map[], []);
            var values := ValuesOf(argv, valueFlags, last, end, key);
            parsed.Parsed? ==>
              && FlagList(parsed.flags, key) == values
              && Flag(parsed.flags, key) == (if values == [] then None else Some(values[|values| - 1]))
              && (key in parsed.flags <==> last > 0 || values != [])
              && (last > 0 && values == [] ==> parsed.flags[key] == Given(argv[last - 1] == "--" + key))
  {
    hide Parse, ValuesOf, IsSwitch, EndsAt;
    KeyFrom(argv, valueFlags, 0, end, map[], [], key, last);
    assert argv[0..] == argv;
  }

  /** `--no-x` alone leaves `x` switched off. */
  lemma NoSwitchesOff(x: string, valueFlags: set<string>)
    requires '=' !in x && x != "__proto__" && x !in {"vmnet-shared", "vmnet-bridge", "install-deps"}
    ensures Parse(["--no-" + x], valueFlags, map[], []) == Parsed(map[x := Given(false)], [])
  {
    var body := "no-" + x;
    assert ("--no-" + x)[2..] == body && body[3..] == x;
    IndexOfAbsent(body, '=');
  }

  /** What a command line asks for: nothing when it names no mode and no feature, and to skip when
      the last said of the mode is `--no-device-mode`. */
  lemma DeviceModeAsked(argv: seq<string>, end: nat, m: nat, e: nat, d: nat)
    requires LastSwitch(argv, VALUE_FLAGS, end, "device-mode", m)
    requires LastSwitch(argv, VALUE_FLAGS, end, "device-mode-enable", e)
    requires LastSwitch(argv, VALUE_FLAGS, end, "device-mode-disable", d)
    requires Parse(argv, VALUE_FLAGS, map[], []).Parsed?
    ensures var modes := ValuesOf(argv, VALUE_FLAGS, m, end, "device-mode");
            var enable := CsvList(ValuesOf(argv, VALUE_FLAGS, e, end, "device-mode-enable"));
            var disable := CsvList(ValuesOf(argv, VALUE_FLAGS, d, end, "device-mode-disable"));
            var asked := DeviceModeFromFlags(Parse(argv, VALUE_FLAGS, map[], []).flags);
            && (modes == [] && m > 0 && argv[m - 1] == "--no-device-mode" ==>
                  asked == Some(Options(Some("skip"), None, None)))
            && (modes == [] && enable == [] && disable == [] && (m == 0 || argv[m - 1] == "--device-mode") ==> asked == None)
            && (modes != [] || ((enable != [] || disable != []) && (m == 0 || argv[m - 1] == "--device-mode")) ==>
                  asked == Some(Options(Some(if modes == [] then "auto" else modes[|modes| - 1]),
                                        if enable == [] then None else Some(enable),
                                        if disable == [] then None else Some(disable))))
  {
    hide Parse, ValuesOf, LastSwitch, CsvList, FlagList, VALUE_FLAGS;
    KeyMeans(argv, VALUE_FLAGS, end, "device-mode", m);
    KeyMeans(argv, VALUE_FLAGS, end, "device-mode-enable", e);
    KeyMeans(argv, VALUE_FLAGS, end, "device-mode-disable", d);
  }

  /** Refusing the device mode is a request, and silence is none. */
  lemma RefusalIsNotSilence()
    ensures Parse(["--no-device-mode"], VALUE_FLAGS, map[], []) == Parsed(map["device-mode" := Given(false)], [])
    ensures DeviceModeFromFlags(map["device-mode" := Given(false)]) == Some(Options(Some("skip"), None, None))
    ensures Parse([], VALUE_FLAGS, map[], []) == Parsed(map[], [])
    ensures DeviceModeFromFlags(map[]) == None
  {
    hide Parse, VALUE_FLAGS, CsvList;
    assert "device-mode"[0] == 'd' && "__proto__"[0] == '_';
    assert "--no-" + "device-mode" == "--no-device-mode";
    NoSwitchesOff("device-mode", VALUE_FLAGS);
    NothingAsked();
  }

  lemma NothingAsked()
    ensures Parse([], VALUE_FLAGS, map[], []) == Parsed(map[], [])
    ensures DeviceModeFromFlags(map[]) == None
  {
    hide VALUE_FLAGS;
    assert Pieces([]) == [];
  }
}
