/** Quoting for the shell, and how the shell takes quoted text apart again. */
module ShellWords {
  import opened Prelude
  import opened Text

  /** The characters that need no quotes. */
  predicate Safe(c: char) {
    'A' <= c <= 'Z' || 'a' <= c <= 'z' || '0' <= c <= '9'
    || c == '.' || c == '_' || c == ':' || c == '=' || c == '@' || c == ',' || c == '+' || c == '/' || c == '-'
  }

  predicate Blank(c: char) {
    c == ' ' || c == '\t' || c == '\n'
  }

  function EscapeQuotes(value: string): string {
    if value == "" then ""
    else (if value[0] == '\'' then "'\\''" else [value[0]]) + EscapeQuotes(value[1..])
  }

  function ShellQuote(value: string): string {
    if value != "" && (forall c :: c in value ==> Safe(c)) then value else "'" + EscapeQuotes(value) + "'"
  }

  /** The words of a command line, by the quoting rules of POSIX.1-2017 XCU section 2.2 for
      single quotes (2.2.2) and backslashes outside quotes (2.2.1). `word` is the word being
      read, if one has begun. Text that needs any other rule of the shell is not split. */
  function Words(s: string, word: Option<string>, quoted: bool): Option<seq<string>>
    decreases |s|
  {
    var soFar := if word.Some? then word.value else "";
    if s == "" then if quoted then None else Some(if word.Some? then [word.value] else [])
    else if quoted then
      if s[0] == '\'' then Words(s[1..], Some(soFar), false) else Words(s[1..], Some(soFar + [s[0]]), true)
    else if Blank(s[0]) then
      match Words(s[1..], None, false)
      case None => None
      case Some(words) => Some((if word.Some? then [word.value] else []) + words)
    else if s[0] == '\'' then Words(s[1..], Some(soFar), true)
    else if s[0] == '\\' then
      if |s| == 1 || s[1] == '\n' then None else Words(s[2..], Some(soFar + [s[1]]), false)
    else if Safe(s[0]) then Words(s[1..], Some(soFar + [s[0]]), false)
    else None
  }

  lemma {:induction false} SafeRun(value: string, rest: string, word: string)
    requires forall c :: c in value ==> Safe(c)
    ensures Words(value + rest, Some(word), false) == Words(rest, Some(word + value), false)
  {
    if value == "" {
      assert value + rest == rest && word + value == word;
    } else {
      assert value[0] in value && Safe(value[0]);
      assert (value + rest)[1..] == value[1..] + rest;
      SafeRun(value[1..], rest, word + [value[0]]);
      assert word + [value[0]] + value[1..] == word + value;
    }
  }

  lemma {:induction false} QuotedRun(value: string, rest: string, word: string)
    ensures Words(EscapeQuotes(value) + "'" + rest, Some(word), true) == Words(rest, Some(word + value), false)
  {
    var s := EscapeQuotes(value) + "'" + rest;
    if value == "" {
      assert s[1..] == rest && word + value == word;
    } else {
      var inner := EscapeQuotes(value[1..]) + "'" + rest;
      QuotedRun(value[1..], rest, word + [value[0]]);
      assert word + [value[0]] + value[1..] == word + value;
      if value[0] == '\'' {
        EscapedQuote(inner, word);
        assert s == "'\\''" + inner;
      } else {
        assert s == [value[0]] + inner;
        assert s[1..] == inner;
      }
    }
  }

  /** Leaving the quotes, an escaped quote, and entering them again. */
  lemma EscapedQuote(inner: string, word: string)
    ensures Words("'\\''" + inner, Some(word), true) == Words(inner, Some(word + ['\'']), true)
  {
    var s, s1, s2 := "'\\''" + inner, "\\''" + inner, "'" + inner;
    assert s[0] == '\'' && s[1..] == s1;
    assert s1[0] == '\\' && s1[1] == '\'' && s1[2..] == s2;
    assert s2[0] == '\'' && s2[1..] == inner;
    assert Words(s2, Some(word + ['\'']), false) == Words(inner, Some(word + ['\'']), true);
    assert Words(s1, Some(word), false) == Words(s2, Some(word + ['\'']), false);
  }

  lemma OpeningQuote(rest: string)
    ensures Words("'" + rest, None, false) == Words(rest, Some(""), true)
  {
    assert ("'" + rest)[0] == '\'' && ("'" + rest)[1..] == rest;
  }

  lemma FirstSafe(c: char, rest: string)
    requires Safe(c)
    ensures Words([c] + rest, None, false) == Words(rest, Some([c]), false)
  {
    assert ([c] + rest)[0] == c && ([c] + rest)[1..] == rest;
    assert "" + [c] == [c];
  }

  lemma BlankEnds(rest: string, word: string, words: seq<string>)
    requires Words(rest, None, false) == Some(words)
    ensures Words(" " + rest, Some(word), false) == Some([word] + words)
  {
    assert (" " + rest)[0] == ' ' && (" " + rest)[1..] == rest;
  }

  /** The shell reads a quoted value as that value, whatever it contains. */
  lemma QuotedWord(value: string, rest: string)
    ensures Words(ShellQuote(value) + rest, None, false) == Words(rest, Some(value), false)
  {
    if value != "" && forall c :: c in value ==> Safe(c) {
      assert value[0] in value;
      assert value + rest == [value[0]] + (value[1..] + rest);
      FirstSafe(value[0], value[1..] + rest);
      SafeRun(value[1..], rest, [value[0]]);
      assert [value[0]] + value[1..] == value;
    } else {
      assert ShellQuote(value) + rest == "'" + (EscapeQuotes(value) + "'" + rest);
      OpeningQuote(EscapeQuotes(value) + "'" + rest);
      QuotedRun(value, rest, "");
      assert "" + value == value;
    }
  }

  lemma {:induction false} EscapedIsNoShorter(value: string)
    ensures |EscapeQuotes(value)| >= |value|
  {
    if value != "" {
      EscapedIsNoShorter(value[1..]);
    }
  }

  /** Ordinary values are returned as they are, and only those. */
  lemma OnlyOrdinaryUnquoted(value: string)
    ensures ShellQuote(value) == value
            <==> value != ""
                 && forall c :: c in value ==>
                      'a' <= c <= 'z' || 'A' <= c <= 'Z' || '0' <= c <= '9' || c in ['.', '_', ':', '=', '@', ',', '+', '/', '-']
  {
    EscapedIsNoShorter(value);
    assert |ShellQuote(value)| == |value| || |ShellQuote(value)| >= |value| + 2;
  }

  function QuoteAll(args: seq<string>): seq<string> {
    if args == [] then [] else [ShellQuote(args[0])] + QuoteAll(args[1..])
  }

  /** Any arguments, quoted and joined with blanks, come out of the shell as they went in. */
  lemma {:induction false} CommandLineReadsBack(args: seq<string>)
    ensures Words(Join(QuoteAll(args), " "), None, false) == Some(args)
  {
    if args == [] {
      assert Words("", None, false) == Some([]);
    } else {
      CommandLineReadsBack(args[1..]);
      FirstThenRest(args[0], args[1..]);
      assert args == [args[0]] + args[1..];
    }
  }

  lemma FirstThenRest(first: string, others: seq<string>)
    requires Words(Join(QuoteAll(others), " "), None, false) == Some(others)
    ensures Words(Join(QuoteAll([first] + others), " "), None, false) == Some([first] + others)
  {
    var line := Join(QuoteAll([first] + others), " ");
    assert ([first] + others)[1..] == others;
    if others == [] {
      QuotedWord(first, "");
      assert line == ShellQuote(first) + "";
      assert Words("", Some(first), false) == Some([first]);
      assert [first] + others == [first];
    } else {
      var rest := Join(QuoteAll(others), " ");
      QuotedWord(first, " " + rest);
      assert line == ShellQuote(first) + (" " + rest);
      BlankEnds(rest, first, others);
    }
  }
}
