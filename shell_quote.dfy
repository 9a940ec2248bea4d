/** Single-quote escaping of shell arguments, and the part of the POSIX shell
    word syntax needed to read such a command line back: unquoted safe
    characters, single-quoted runs, double-quoted runs without `$`, backquote
    or backslash, and backslash escapes, words separated by single spaces.
    Reading an escaped argument back gives the argument. */
module ShellQuote {
  import opened Wrappers
  import opened Text

  /** `escape_shell_arg`: wrap in single quotes and write each single quote
      inside as `'\''` (close the quote, an escaped quote, reopen). */
  function EscapeShellArg(arg: string): (r: string)
    ensures |r| >= 2 && r[0] == '\'' && r[|r| - 1] == '\''
  {
    "'" + Replace(arg, '\'', "'\\''") + "'"
  }

  /** An argument without single quotes is only wrapped. */
  lemma EscapeWithoutQuotes(arg: string)
    requires '\'' !in arg
    ensures EscapeShellArg(arg) == "'" + arg + "'"
  {
  }

  /** `it's` is escaped as `'it'\''s'`. */
  lemma EscapeQuoteExample(arg: string)
    requires arg == "it's"
    ensures EscapeShellArg(arg) == "'it'\\''s'"
  {
    assert arg == "it" + "'" + "s";
    EscapeAtFirstQuote("it", "s");
    EscapeWithoutQuotes("s");
  }

  // ---------------------------------------------------------------------------
  // Reading a command line back

  /** Characters that stand for themselves outside quotes (`=` included:
      the reader is only applied to words after the command name). */
  predicate PlainChar(c: char) {
    ('a' <= c <= 'z') || ('A' <= c <= 'Z') || IsDigit(c) || c == '-' || c == '/' || c == '.' || c == '_' || c == '='
  }

  datatype Read = Read(word: string, rest: string)

  /** The text up to the next single quote, and what follows that quote. */
  function ReadQuoted(t: string): (r: Option<Read>)
    ensures r.Some? ==> |r.value.rest| < |t|
  {
    var k := IndexOf(t, '\'');
    if k == |t| then None else Some(Read(t[..k], t[k + 1..]))
  }

  /** One shell word: up to an unquoted space or the end of the text. None
      when the text is outside the syntax this reader accepts (an unclosed
      quote, a trailing backslash, a character that would need quoting). */
  function ReadWord(t: string): (r: Option<Read>)
    ensures r.Some? ==> |r.value.rest| <= |t| && (r.value.rest == [] || r.value.rest[0] == ' ')
    decreases |t|
  {
    if t == [] then Some(Read([], []))
    else if t[0] == ' ' then Some(Read([], t))
    else if t[0] == '\'' then
      match ReadQuoted(t[1..])
      case None => None
      case Some(q) => Prepend(q.word, ReadWord(q.rest))
    else if t[0] == '"' then
      match ReadDoubleQuoted(t[1..])
      case None => None
      case Some(q) => Prepend(q.word, ReadWord(q.rest))
    else if t[0] == '\\' then
      if |t| < 2 then None else Prepend([t[1]], ReadWord(t[2..]))
    else if PlainChar(t[0]) then Prepend([t[0]], ReadWord(t[1..]))
    else None
  }

  /** Characters a double-quoted run still expands or escapes. */
  predicate DoubleQuoteSafe(s: string) {
    '$' !in s && '`' !in s && '\\' !in s
  }

  /** The text up to the next double quote, when it holds nothing the shell
      would expand there, and what follows that quote. */
  function ReadDoubleQuoted(t: string): (r: Option<Read>)
    ensures r.Some? ==> |r.value.rest| < |t|
  {
    var k := IndexOf(t, '"');
    if k == |t| || !DoubleQuoteSafe(t[..k]) then None else Some(Read(t[..k], t[k + 1..]))
  }

  function Prepend(w: string, r: Option<Read>): (p: Option<Read>)
    ensures p.Some? <==> r.Some?
    ensures r.Some? ==> p.value == Read(w + r.value.word, r.value.rest)
  {
    match r
    case None => None
    case Some(Read(w', rest)) => Some(Read(w + w', rest))
  }

  /** The words of a command line, separated by single spaces. */
  function ReadWords(t: string): Option<seq<string>>
    decreases |t|
  {
    match ReadWord(t)
    case None => None
    case Some(Read(w, rest)) =>
      if rest == [] then Some([w])
      else match ReadWords(rest[1..])
        case None => None
        case Some(ws) => Some([w] + ws)
  }

  /** A word ends at a space or at the end of the text. */
  lemma ReadAtBoundary(rest: string)
    requires rest == [] || rest[0] == ' '
    ensures ReadWord(rest) == Some(Read([], rest))
  {
  }

  /** A single-quoted run contributes its contents. */
  lemma ReadOpenQuote(body: string, after: string)
    requires '\'' !in body
    ensures ReadWord("'" + body + "'" + after) == Prepend(body, ReadWord(after))
  {
    var t := "'" + body + "'" + after;
    assert t[0] == '\'';
    assert t[1..] == body + ("'" + after);
    IndexOfPast(body, "'" + after, '\'');
    assert (body + ("'" + after))[..|body|] == body;
    assert (body + ("'" + after))[|body| + 1..] == after;
  }

  /** A double-quoted run of safe characters contributes its contents. */
  lemma ReadDoubleQuotedWord(body: string, rest: string, t: string)
    requires '"' !in body && DoubleQuoteSafe(body)
    requires rest == [] || rest[0] == ' '
    requires t == "\"" + body + "\"" + rest
    ensures ReadWord(t) == Some(Read(body, rest))
  {
    assert t[0] == '"';
    assert t[1..] == body + ("\"" + rest);
    DoubleQuotedRun(body, rest, t[1..]);
    ReadAtBoundary(rest);
    assert body + [] == body;
  }

  lemma DoubleQuotedRun(body: string, rest: string, u: string)
    requires '"' !in body && DoubleQuoteSafe(body)
    requires u == body + ("\"" + rest)
    ensures ReadDoubleQuoted(u) == Some(Read(body, rest))
  {
    IndexOfPast(body, "\"" + rest, '"');
    assert u[..|body|] == body;
    assert u[|body| + 1..] == rest;
  }

  /** A backslash-escaped quote contributes a quote. */
  lemma ReadEscapedQuote(after: string)
    ensures ReadWord("\\'" + after) == Prepend("'", ReadWord(after))
  {
    var t := "\\'" + after;
    assert t[0] == '\\' && t[1] == '\'' && t[2..] == after;
  }

  /** Escaping an argument at its first quote: the quoted run before it, the
      escaped quote, and the escaped remainder. */
  lemma EscapeAtFirstQuote(before: string, after: string)
    requires '\'' !in before
    ensures EscapeShellArg(before + "'" + after) == "'" + before + "'" + ("\\'" + EscapeShellArg(after))
  {
    ReplaceAtQuote(before, after);
    Regroup(before, Replace(after, '\'', "'\\''"));
  }

  lemma ReplaceAtQuote(before: string, after: string)
    requires '\'' !in before
    ensures Replace(before + "'" + after, '\'', "'\\''") == before + "'\\''" + Replace(after, '\'', "'\\''")
  {
    ReplaceAppend(before + "'", after, '\'', "'\\''");
    ReplaceAppend(before, "'", '\'', "'\\''");
    QuoteReplaced();
  }

  lemma Regroup(before: string, ra: string)
    ensures "'" + (before + "'\\''" + ra) + "'" == "'" + before + "'" + ("\\'" + ("'" + ra + "'"))
  {
    assert "'\\''" == "'" + "\\'" + "'";
  }

  lemma QuoteReplaced()
    ensures Replace("'", '\'', "'\\''") == "'\\''"
  {
    assert "'"[1..] == [];
    assert "'\\''" + [] == "'\\''";
  }

  /** Reading an escaped argument gives the argument back, and stops right
      after it. */
  lemma {:induction false} ReadEscaped(arg: string, rest: string)
    requires rest == [] || rest[0] == ' '
    ensures ReadWord(EscapeShellArg(arg) + rest) == Some(Read(arg, rest))
    decreases |arg|
  {
    var k := IndexOf(arg, '\'');
    if k == |arg| {
      assert arg[..k] == arg;
      ReadEscapedWithoutQuotes(arg, rest);
    } else {
      assert arg == arg[..k] + "'" + arg[k + 1..];
      ReadEscaped(arg[k + 1..], rest);
      ReadEscapedAtQuote(arg[..k], arg[k + 1..], rest);
    }
  }

  lemma ReadEscapedWithoutQuotes(arg: string, rest: string)
    requires rest == [] || rest[0] == ' '
    requires '\'' !in arg
    ensures ReadWord(EscapeShellArg(arg) + rest) == Some(Read(arg, rest))
  {
    EscapeWithoutQuotes(arg);
    assert EscapeShellArg(arg) + rest == "'" + arg + "'" + rest;
    ReadOpenQuote(arg, rest);
    ReadAtBoundary(rest);
    assert arg + [] == arg;
  }

  lemma ReadEscapedAtQuote(before: string, after: string, rest: string)
    requires '\'' !in before
    requires ReadWord(EscapeShellArg(after) + rest) == Some(Read(after, rest))
    ensures ReadWord(EscapeShellArg(before + "'" + after) + rest) == Some(Read(before + "'" + after, rest))
  {
    var x := EscapeShellArg(after) + rest;
    var t := EscapeShellArg(before + "'" + after) + rest;
    EscapedAtQuoteText(before, after, rest, x, t);
    ReadQuotedThenEscapedQuote(before, x, after, rest, t);
  }

  lemma EscapedAtQuoteText(before: string, after: string, rest: string, x: string, t: string)
    requires '\'' !in before
    requires x == EscapeShellArg(after) + rest && t == EscapeShellArg(before + "'" + after) + rest
    ensures t == "'" + before + "'" + ("\\'" + x)
  {
    EscapeAtFirstQuote(before, after);
  }

  lemma ReadQuotedThenEscapedQuote(before: string, x: string, w: string, r: string, t: string)
    requires '\'' !in before
    requires ReadWord(x) == Some(Read(w, r))
    requires t == "'" + before + "'" + ("\\'" + x)
    ensures ReadWord(t) == Some(Read(before + "'" + w, r))
  {
    var y := "\\'" + x;
    ReadOpenQuote(before, y);
    ReadEscapedQuote(x);
    PrependTwice(before, w, r, ReadWord(t), ReadWord(y), ReadWord(x));
  }

  lemma PrependTwice(before: string, w: string, r: string, o1: Option<Read>, o2: Option<Read>, o3: Option<Read>)
    requires o3 == Some(Read(w, r)) && o2 == Prepend("'", o3) && o1 == Prepend(before, o2)
    ensures o1 == Some(Read(before + "'" + w, r))
  {
    assert before + ("'" + w) == before + "'" + w;
  }

  /** The index of the first `c` in `a + b` is found in `b` when `a` has none. */
  lemma {:induction false} IndexOfPast(a: string, b: string, c: char)
    requires c !in a
    ensures IndexOf(a + b, c) == |a| + IndexOf(b, c)
  {
    if a != [] {
      assert (a + b)[0] == a[0];
      assert (a + b)[1..] == a[1..] + b;
      IndexOfPast(a[1..], b, c);
    } else {
      assert a + b == b;
    }
  }

  /** `a c b` with no `c` in `a` splits at the `c` after `a`. */
  lemma SplitAtFirst(a: string, c: char, b: string, t: string)
    requires c !in a && t == a + [c] + b
    ensures IndexOf(t, c) == |a| && t[..|a|] == a && t[|a| + 1..] == b
  {
    assert t == a + ([c] + b);
    IndexOfPast(a, [c] + b, c);
    assert t[..|a|] == a;
    assert t[|a| + 1..] == b;
  }

  predicate PlainWord(w: string) {
    forall i :: 0 <= i < |w| ==> PlainChar(w[i])
  }

  /** A word of plain characters reads as itself. */
  lemma {:induction false} ReadPlain(w: string, rest: string)
    requires PlainWord(w)
    requires rest == [] || rest[0] == ' '
    ensures ReadWord(w + rest) == Some(Read(w, rest))
  {
    if w == [] {
      assert w + rest == rest;
    } else {
      assert (w + rest)[0] == w[0];
      assert (w + rest)[1..] == w[1..] + rest;
      ReadPlain(w[1..], rest);
      assert [w[0]] + w[1..] == w;
    }
  }

  /** A word followed by a space and more words. */
  lemma ReadWordsCons(t: string, w: string, rest: string, ws: seq<string>)
    requires ReadWord(t) == Some(Read(w, " " + rest))
    requires ReadWords(rest) == Some(ws)
    ensures ReadWords(t) == Some([w] + ws)
  {
    assert (" " + rest)[1..] == rest;
  }

  /** A plain word, a space, and the rest of a command line. */
  lemma ReadPlainThen(w: string, rest: string, ws: seq<string>, t: string)
    requires PlainWord(w)
    requires ReadWords(rest) == Some(ws)
    requires t == w + " " + rest
    ensures ReadWords(t) == Some([w] + ws)
  {
    assert t == w + (" " + rest);
    ReadPlain(w, " " + rest);
    ReadWordsCons(t, w, rest, ws);
  }

  /** An escaped argument, a space, and the rest of a command line. */
  lemma ReadEscapedThen(arg: string, rest: string, ws: seq<string>, t: string)
    requires ReadWords(rest) == Some(ws)
    requires t == EscapeShellArg(arg) + " " + rest
    ensures ReadWords(t) == Some([arg] + ws)
  {
    assert t == EscapeShellArg(arg) + (" " + rest);
    ReadEscaped(arg, " " + rest);
    ReadWordsCons(t, arg, rest, ws);
  }

  /** An escaped argument at the end of a command line. */
  lemma ReadEscapedLast(arg: string)
    ensures ReadWords(EscapeShellArg(arg)) == Some([arg])
  {
    ReadEscaped(arg, []);
    assert EscapeShellArg(arg) + [] == EscapeShellArg(arg);
  }

  /** Two plain words and an escaped argument (`mkdir -p <path>`, `rm -rf <path>`). */
  lemma ReadPlainPlainEscaped(w1: string, w2: string, arg: string, t: string)
    requires PlainWord(w1) && PlainWord(w2)
    requires t == w1 + " " + w2 + " " + EscapeShellArg(arg)
    ensures ReadWords(t) == Some([w1, w2, arg])
  {
    var e := EscapeShellArg(arg);
    var t2 := w2 + " " + e;
    ReadEscapedLast(arg);
    ReadPlainThen(w2, e, [arg], t2);
    assert [w2] + [arg] == [w2, arg];
    SpaceRegroup(w1, w2, e, t2, t);
    ReadPlainThen(w1, t2, [w2, arg], t);
    assert [w1] + [w2, arg] == [w1, w2, arg];
  }

  /** A plain word and two escaped arguments (`mv <from> <to>`). */
  lemma ReadPlainEscapedEscaped(w: string, a: string, b: string, t: string)
    requires PlainWord(w)
    requires t == w + " " + EscapeShellArg(a) + " " + EscapeShellArg(b)
    ensures ReadWords(t) == Some([w, a, b])
  {
    var ea := EscapeShellArg(a);
    var eb := EscapeShellArg(b);
    var t2 := ea + " " + eb;
    ReadEscapedLast(b);
    ReadEscapedThen(a, eb, [b], t2);
    assert [a] + [b] == [a, b];
    SpaceRegroup(w, ea, eb, t2, t);
    ReadPlainThen(w, t2, [a, b], t);
    assert [w] + [a, b] == [w, a, b];
  }

  /** The words of the `mkdir -p ` prefix. */
  lemma MkdirPrefix(tail: string, t: string)
    requires t == "mkdir -p " + tail
    ensures t == "mkdir" + " " + "-p" + " " + tail
    ensures t == "mkdir" + " " + ("-p" + " " + tail)
  {
    assert "mkdir -p " == "mkdir" + " " + "-p" + " ";
  }

  lemma SpaceRegroup(a: string, b: string, c: string, bc: string, t: string)
    requires bc == b + " " + c && t == a + " " + b + " " + c
    ensures t == a + " " + bc
  {
  }
}
