/** The `.inf` parameter file: written by the renderer after a capture
    (src/render-to-sound.cpp:430-449) and read back by the animation script
    (scripts/create-rendeing-animation.py:184-191), which also derives the
    names of a capture's companion files from the point-cloud file name
    (lines 241-245).  Python strings become `string`; the file contents are
    passed in as text (opening and reading the file is not modelled). */
module ParameterFile {

  datatype Option<T> = None | Some(value: T)

  // ---------------------------------------------------------------------
  // Python's `str.strip()`

  /** The characters `str.strip()` removes by default: those for which
      `str.isspace()` holds. */
  predicate IsSpace(c: char) {
    var x := c as int;
    || x == 0x20 || 0x09 <= x <= 0x0D || 0x1C <= x <= 0x1F || x == 0x85 || x == 0xA0
    || x == 0x1680 || 0x2000 <= x <= 0x200A || x == 0x2028 || x == 0x2029
    || x == 0x202F || x == 0x205F || x == 0x3000
  }

  predicate AllSpace(s: string) {
    forall i :: 0 <= i < |s| ==> IsSpace(s[i])
  }

  /** Neither end of `s` is whitespace (the empty string included). */
  predicate Trimmed(s: string) {
    s == [] || (!IsSpace(s[0]) && !IsSpace(s[|s| - 1]))
  }

  function TrimLeft(s: string): (r: string)
    ensures r == [] || !IsSpace(r[0])
    ensures |r| <= |s| && r == s[|s| - |r|..]
  {
    if s != [] && IsSpace(s[0]) then TrimLeft(s[1..]) else s
  }

  function TrimRight(s: string): (r: string)
    ensures r == [] || !IsSpace(r[|r| - 1])
    ensures |r| <= |s| && r == s[..|r|]
  {
    if s != [] && IsSpace(s[|s| - 1]) then TrimRight(s[..|s| - 1]) else s
  }

  /** `s.strip()`: both ends trimmed of whitespace. */
  function Strip(s: string): string {
    TrimRight(TrimLeft(s))
  }

  lemma {:induction false} TrimLeftPadded(w: string, t: string)
    requires AllSpace(w) && (t == [] || !IsSpace(t[0]))
    ensures TrimLeft(w + t) == t
    decreases |w|
  {
    if w == [] {
      assert w + t == t;
    } else {
      assert (w + t)[1..] == w[1..] + t;
      TrimLeftPadded(w[1..], t);
    }
  }

  lemma {:induction false} TrimRightPadded(t: string, w: string)
    requires AllSpace(w) && (t == [] || !IsSpace(t[|t| - 1]))
    ensures TrimRight(t + w) == t
    decreases |w|
  {
    if w == [] {
      assert t + w == t;
    } else {
      assert (t + w)[..|t + w| - 1] == t + w[..|w| - 1];
      TrimRightPadded(t, w[..|w| - 1]);
    }
  }

  /** Trimming on the right keeps a non-space first character. */
  lemma {:induction false} TrimRightKeepsFront(s: string)
    requires s != [] && !IsSpace(s[0])
    ensures TrimRight(s) != [] && TrimRight(s)[0] == s[0]
    decreases |s|
  {
    if IsSpace(s[|s| - 1]) {
      TrimRightKeepsFront(s[..|s| - 1]);
    }
  }

  /** `strip()` leaves neither end whitespace. */
  lemma StripTrimmed(s: string)
    ensures Trimmed(Strip(s))
  {
    var l := TrimLeft(s);
    if l != [] {
      TrimRightKeepsFront(l);
    }
  }

  /** Whitespace around a trimmed string is exactly what `strip()` removes. */
  lemma StripPadded(w: string, s: string, w': string)
    requires AllSpace(w) && AllSpace(w') && Trimmed(s)
    ensures Strip(w + s + w') == s
  {
    if s == [] {
      assert w + s + w' == w + w';
      assert AllSpace(w + w');
      TrimLeftPadded(w + w', []);
      assert w + w' + [] == w + w';
    } else {
      assert w + s + w' == w + (s + w');
      TrimLeftPadded(w, s + w');
      TrimRightPadded(s, w');
    }
  }

  /** `strip()` is idempotent: stored keys and values are stripped. */
  lemma StripIdempotent(s: string)
    ensures Strip(Strip(s)) == Strip(s)
  {
    StripTrimmed(s);
    StripPadded([], Strip(s), []);
    assert [] + Strip(s) + [] == Strip(s);
  }

  // ---------------------------------------------------------------------
  // Python's `str.split(sep)` with a one-character separator

  function Occurrences(s: string, c: char): nat {
    if s == [] then 0 else (if s[0] == c then 1 else 0) + Occurrences(s[1..], c)
  }

  /** `s.split(c)`: the pieces between the occurrences of `c`, empty pieces
      included. */
  function Split(s: string, c: char): (pieces: seq<string>)
    ensures |pieces| >= 1
  {
    if s == [] then [[]]
    else
      var rest := Split(s[1..], c);
      if s[0] == c then [[]] + rest
      else [[s[0]] + rest[0]] + rest[1..]
  }

  /** There is one more piece than separators. */
  lemma {:induction false} SplitLength(s: string, c: char)
    ensures |Split(s, c)| == Occurrences(s, c) + 1
    decreases |s|
  {
    if s != [] {
      SplitLength(s[1..], c);
    }
  }

  /** A string without the separator is one piece. */
  lemma {:induction false} SplitNone(s: string, c: char)
    requires Occurrences(s, c) == 0
    ensures Split(s, c) == [s]
    decreases |s|
  {
    if s != [] {
      SplitNone(s[1..], c);
      assert [s[0]] + s[1..] == s;
    }
  }

  lemma {:induction false} OccurrencesAppend(a: string, b: string, c: char)
    ensures Occurrences(a + b, c) == Occurrences(a, c) + Occurrences(b, c)
    decreases |a|
  {
    if a == [] {
      assert a + b == b;
    } else {
      assert (a + b)[1..] == a[1..] + b;
      OccurrencesAppend(a[1..], b, c);
    }
  }

  /** A string with a single separator splits around it. */
  lemma {:induction false} SplitOne(a: string, b: string, c: char)
    requires Occurrences(a, c) == 0 && Occurrences(b, c) == 0
    ensures Split(a + [c] + b, c) == [a, b]
    decreases |a|
  {
    if a == [] {
      assert a + [c] + b == [c] + b;
      assert ([c] + b)[1..] == b;
      SplitNone(b, c);
    } else {
      assert (a + [c] + b)[1..] == a[1..] + [c] + b;
      SplitOne(a[1..], b, c);
      assert [a[0]] + a[1..] == a;
    }
  }

  // ---------------------------------------------------------------------
  // `f.readlines()`

  /** Index of the first newline of `s`, or `|s|` when it has none. */
  function FirstNewline(s: string): (n: nat)
    ensures n <= |s| && (n < |s| ==> s[n] == '\n')
    ensures forall i :: 0 <= i < n ==> s[i] != '\n'
  {
    if s == [] || s[0] == '\n' then 0 else 1 + FirstNewline(s[1..])
  }

  /** `readlines()` on text whose line ends are `'\n'` (the text-mode
      translation of other line ends is not modelled): each line keeps its
      newline; a last line without one is kept too. */
  function ReadLines(text: string): (lines: seq<string>)
    decreases |text|
  {
    if text == [] then []
    else
      var n := FirstNewline(text);
      var cut := if n < |text| then n + 1 else |text|;
      [text[..cut]] + ReadLines(text[cut..])
  }

  function Concat(lines: seq<string>): string {
    if lines == [] then [] else lines[0] + Concat(lines[1..])
  }

  /** The lines put back together are the text. */
  lemma {:induction false} ReadLinesConcat(text: string)
    ensures Concat(ReadLines(text)) == text
    decreases |text|
  {
    if text != [] {
      var n := FirstNewline(text);
      var cut := if n < |text| then n + 1 else |text|;
      ReadLinesConcat(text[cut..]);
      assert text[..cut] + text[cut..] == text;
      var line, rest := text[..cut], ReadLines(text[cut..]);
      assert ReadLines(text) == [line] + rest;
      ConsParts(line, rest);
    }
  }

  lemma ConsParts<T>(x: T, r: seq<T>)
    ensures [x] + r != [] && ([x] + r)[0] == x && ([x] + r)[1..] == r
  {
  }

  /** A line as `readlines()` returns it: not empty, and only its last
      character can be a newline. */
  predicate LineShape(line: string) {
    line != [] && Without(line[..|line| - 1], '\n')
  }

  /** Every line has that shape, and every line but the last ends with a
      newline. */
  lemma {:induction false} ReadLinesShape(text: string)
    ensures forall k :: 0 <= k < |ReadLines(text)| ==> LineShape(ReadLines(text)[k])
    ensures forall k :: 0 <= k < |ReadLines(text)| - 1 ==>
      ReadLines(text)[k] != [] && ReadLines(text)[k][|ReadLines(text)[k]| - 1] == '\n'
    decreases |text|
  {
    if text != [] {
      var n := FirstNewline(text);
      var cut := if n < |text| then n + 1 else |text|;
      var rest := ReadLines(text[cut..]);
      ReadLinesShape(text[cut..]);
      var line := text[..cut];
      assert line[..|line| - 1] == text[..cut - 1];
      assert forall i :: 0 <= i < cut - 1 ==> text[..cut - 1][i] == text[i];
      assert LineShape(line);
      var ls := ReadLines(text);
      assert ls == [line] + rest;
      assert forall k :: 1 <= k < |ls| ==> ls[k] == rest[k - 1];
      if cut == |text| {
        assert text[cut..] == [];
      }
    }
  }

  /** `s` has no character `c`. */
  predicate Without(s: string, c: char) {
    forall i :: 0 <= i < |s| ==> s[i] != c
  }

  lemma {:induction false} NoOccurrences(s: string, c: char)
    requires Without(s, c)
    ensures Occurrences(s, c) == 0
    decreases |s|
  {
    if s != [] {
      assert forall i :: 0 <= i < |s| - 1 ==> s[1..][i] == s[i + 1];
      NoOccurrences(s[1..], c);
    }
  }

  lemma {:induction false} FirstNewlineIs(s: string, n: nat)
    requires n < |s| && s[n] == '\n' && Without(s[..n], '\n')
    ensures FirstNewline(s) == n
    decreases n
  {
    if n > 0 {
      assert s[0] == s[..n][0];
      assert s[1..][..n - 1] == s[..n][1..];
      FirstNewlineIs(s[1..], n - 1);
    }
  }

  /** A line ended by its only newline comes first, whatever follows. */
  lemma ReadFirstLine(line: string, rest: string)
    requires line != [] && line[|line| - 1] == '\n' && Without(line[..|line| - 1], '\n')
    ensures ReadLines(line + rest) == [line] + ReadLines(rest)
  {
    var s := line + rest;
    assert s[..|line| - 1] == line[..|line| - 1];
    FirstNewlineIs(s, |line| - 1);
    assert s[..|line|] == line;
    assert s[|line|..] == rest;
  }

  /** Text that ends a line can be read in two parts. */
  lemma {:induction false} ReadLinesAppend(a: string, b: string)
    requires a == [] || a[|a| - 1] == '\n'
    ensures ReadLines(a + b) == ReadLines(a) + ReadLines(b)
    decreases |a|
  {
    if a == [] {
      assert a + b == b;
    } else {
      var n := FirstNewline(a);
      var line, rest := a[..n + 1], a[n + 1..];
      assert line[..n] == a[..n];
      assert a == line + rest;
      assert a + b == line + (rest + b);
      ReadFirstLine(line, rest);
      ReadFirstLine(line, rest + b);
      assert rest == [] || rest[|rest| - 1] == a[|a| - 1];
      ReadLinesAppend(rest, b);
      Assoc3([line], ReadLines(rest), ReadLines(b));
    }
  }

  /** Concatenation is associative. */
  lemma Assoc3<T>(a: seq<T>, b: seq<T>, c: seq<T>)
    ensures a + (b + c) == a + b + c
  {
  }

  /** A line without a newline inside, ended by one, is read as one line. */
  lemma ReadOneLine(l: string)
    requires Without(l, '\n')
    ensures ReadLines(l + "\n") == [l + "\n"]
  {
    var s := l + "\n";
    assert s[..|s| - 1] == l;
    ReadFirstLine(s, []);
    assert s + [] == s;
  }

  // ---------------------------------------------------------------------
  // `read_parameters_file` (scripts/create-rendeing-animation.py:184-191)

  type Entry = Option<(string, string)>

  /** What one line contributes: `values = line.strip().split("=")` and,
      when there are exactly two pieces, the stripped pair. */
  function LineEntry(line: string): Entry {
    var values := Split(Strip(line), '=');
    if |values| == 2 then Some((Strip(values[0]), Strip(values[1]))) else None
  }

  /** A line yields an entry exactly when its stripped text holds a single
      `=`; the key and the value are stripped. */
  lemma LineEntryRule(line: string)
    ensures LineEntry(line).Some? <==> Occurrences(Strip(line), '=') == 1
    ensures LineEntry(line).Some? ==> Trimmed(LineEntry(line).value.0) && Trimmed(LineEntry(line).value.1)
  {
    var values := Split(Strip(line), '=');
    SplitLength(Strip(line), '=');
    if |values| == 2 {
      StripTrimmed(values[0]);
      StripTrimmed(values[1]);
    }
  }

  /** The entries of the lines, in order. */
  function Entries(lines: seq<string>): (es: seq<Entry>)
    ensures |es| == |lines|
  {
    if lines == [] then [] else Entries(lines[..|lines| - 1]) + [LineEntry(lines[|lines| - 1])]
  }

  lemma {:induction false} EntriesAt(lines: seq<string>, i: nat)
    requires i < |lines|
    ensures Entries(lines)[i] == LineEntry(lines[i])
    decreases |lines|
  {
    if i < |lines| - 1 {
      var init := lines[..|lines| - 1];
      EntriesAt(init, i);
      assert init[i] == lines[i];
    }
  }

  /** Entries stored into a dictionary in order: a later entry for a key
      replaces an earlier one. */
  function Collect(es: seq<Entry>): map<string, string> {
    if es == [] then map[]
    else
      var d := Collect(es[..|es| - 1]);
      match es[|es| - 1]
      case None => d
      case Some(kv) => d[kv.0 := kv.1]
  }

  /** The dictionary `read_parameters_file` returns for the file's lines. */
  function Parsed(lines: seq<string>): map<string, string> {
    Collect(Entries(lines))
  }

  /** The loop of `read_parameters_file` over `f.readlines()`. */
  method ReadParametersFile(text: string) returns (d: map<string, string>)
    ensures d == Parsed(ReadLines(text))
  {
    d := map[];
    var lines := ReadLines(text);
    for i := 0 to |lines|
      invariant d == Parsed(lines[..i])
    {
      TakeSnoc(lines, i);
      ParsedSnoc(lines[..i], lines[i]);
      var values := Split(Strip(lines[i]), '=');
      if |values| == 2 {
        d := d[Strip(values[0]) := Strip(values[1])];
      }
    }
    assert lines[..|lines|] == lines;
  }

  predicate EntryFor(e: Entry, key: string) {
    e.Some? && e.value.0 == key
  }

  lemma {:induction false} CollectKeys(es: seq<Entry>, key: string)
    ensures key in Collect(es) <==> exists i :: 0 <= i < |es| && EntryFor(es[i], key)
    decreases |es|
  {
    if es != [] {
      var init := es[..|es| - 1];
      CollectKeys(init, key);
      if exists i :: 0 <= i < |init| && EntryFor(init[i], key) {
        var i :| 0 <= i < |init| && EntryFor(init[i], key);
        assert EntryFor(es[i], key);
      }
      if exists i :: 0 <= i < |es| && EntryFor(es[i], key) {
        var i :| 0 <= i < |es| && EntryFor(es[i], key);
        if i < |init| {
          assert EntryFor(init[i], key);
        }
      }
    }
  }

  lemma {:induction false} CollectLastWins(es: seq<Entry>, i: nat, key: string, value: string)
    requires i < |es| && es[i] == Some((key, value))
    requires forall j :: i < j < |es| ==> !EntryFor(es[j], key)
    ensures key in Collect(es) && Collect(es)[key] == value
    decreases |es|
  {
    var init := es[..|es| - 1];
    if i < |es| - 1 {
      assert init[i] == es[i];
      forall j | i < j < |init| ensures !EntryFor(init[j], key) {
        assert init[j] == es[j];
      }
      CollectLastWins(init, i, key, value);
      assert !EntryFor(es[|es| - 1], key);
    }
  }

  lemma {:induction false} CollectStripped(es: seq<Entry>)
    requires forall i :: 0 <= i < |es| && es[i].Some? ==> Trimmed(es[i].value.0) && Trimmed(es[i].value.1)
    ensures forall k :: k in Collect(es) ==> Trimmed(k) && Trimmed(Collect(es)[k])
    decreases |es|
  {
    if es != [] {
      var init := es[..|es| - 1];
      assert forall i :: 0 <= i < |init| ==> init[i] == es[i];
      CollectStripped(init);
      assert es[|es| - 1] == es[|es| - 1];
    }
  }

  /** Appending the same entry keeps equal dictionaries equal. */
  lemma CollectSnoc(es: seq<Entry>, es': seq<Entry>, e: Entry)
    requires Collect(es) == Collect(es')
    ensures Collect(es + [e]) == Collect(es' + [e])
  {
    assert (es + [e])[..|es|] == es;
    assert (es' + [e])[..|es'|] == es';
  }

  lemma CollectNone(es: seq<Entry>)
    ensures Collect(es + [None]) == Collect(es)
  {
    assert (es + [None])[..|es|] == es;
  }

  predicate HasKey(line: string, key: string) {
    EntryFor(LineEntry(line), key)
  }

  /** A key is present exactly when some line has an entry for it. */
  lemma ParsedKeys(lines: seq<string>, key: string)
    ensures key in Parsed(lines) <==> exists i :: 0 <= i < |lines| && HasKey(lines[i], key)
  {
    var es := Entries(lines);
    CollectKeys(es, key);
    if exists i :: 0 <= i < |es| && EntryFor(es[i], key) {
      var i :| 0 <= i < |es| && EntryFor(es[i], key);
      EntriesAt(lines, i);
    }
    if exists i :: 0 <= i < |lines| && HasKey(lines[i], key) {
      var i :| 0 <= i < |lines| && HasKey(lines[i], key);
      EntriesAt(lines, i);
    }
  }

  /** The value stored for a key is the one of its last line. */
  lemma ParsedLastWins(lines: seq<string>, i: nat, key: string, value: string)
    requires i < |lines| && LineEntry(lines[i]) == Some((key, value))
    requires forall j :: i < j < |lines| ==> !HasKey(lines[j], key)
    ensures key in Parsed(lines) && Parsed(lines)[key] == value
  {
    var es := Entries(lines);
    forall j | i < j < |es| ensures !EntryFor(es[j], key) {
      EntriesAt(lines, j);
      assert !HasKey(lines[j], key);
    }
    EntriesAt(lines, i);
    CollectLastWins(es, i, key, value);
  }

  /** Keys and values are stored stripped. */
  lemma ParsedStripped(lines: seq<string>)
    ensures forall k :: k in Parsed(lines) ==> Trimmed(k) && Trimmed(Parsed(lines)[k])
  {
    var es := Entries(lines);
    forall i | 0 <= i < |es| && es[i].Some?
      ensures Trimmed(es[i].value.0) && Trimmed(es[i].value.1)
    {
      EntriesAt(lines, i);
      LineEntryRule(lines[i]);
    }
    CollectStripped(es);
  }

  lemma {:induction false} EntriesAppend(x: seq<string>, y: seq<string>)
    ensures Entries(x + y) == Entries(x) + Entries(y)
    decreases |y|
  {
    if y == [] {
      assert x + y == x;
    } else {
      var y' := y[..|y| - 1];
      EntriesAppend(x, y');
      DropLastAppend(x, y);
      var ex, ey', e := Entries(x), Entries(y'), LineEntry(y[|y| - 1]);
      assert Entries(x + y) == (ex + ey') + [e];
      Assoc3(ex, ey', [e]);
    }
  }

  lemma DropLastAppend<T>(x: seq<T>, y: seq<T>)
    requires y != []
    ensures (x + y)[..|x + y| - 1] == x + y[..|y| - 1]
    ensures (x + y)[|x + y| - 1] == y[|y| - 1]
  {
  }

  lemma {:induction false} CollectSkip(a: seq<Entry>, b: seq<Entry>)
    ensures Collect(a + [None] + b) == Collect(a + b)
    decreases |b|
  {
    if b == [] {
      assert a + [None] + b == a + [None];
      CollectNone(a);
      assert a + b == a;
    } else {
      var b' := b[..|b| - 1];
      var e := b[|b| - 1];
      CollectSkip(a, b');
      assert a + [None] + b == (a + [None] + b') + [e];
      assert a + b == (a + b') + [e];
      CollectSnoc(a + [None] + b', a + b', e);
    }
  }

  /** A line without an entry (no `=`, or two or more) can be dropped from
      anywhere in the file. */
  lemma IgnoredLine(a: seq<string>, line: string, b: seq<string>)
    requires LineEntry(line).None?
    ensures Parsed(a + [line] + b) == Parsed(a + b)
  {
    EntriesAppend(a + [line], b);
    EntriesAppend(a, [line]);
    EntriesAppend(a, b);
    assert Entries([line]) == [None] by {
      assert [line][..0] == [];
    }
    CollectSkip(Entries(a), Entries(b));
  }

  // ---------------------------------------------------------------------
  // The `.inf` writer (src/render-to-sound.cpp:436-448)

  /** `if (argv[i][0] == '-') of << "\n"; of << argv[i] << " ";`: every
      option starts a new line. */
  function ArgumentText(arg: string): string {
    (if |arg| > 0 && arg[0] == '-' then "\n" else "") + arg + " "
  }

  function ArgumentsText(args: seq<string>): string {
    if args == [] then "" else ArgumentsText(args[..|args| - 1]) + ArgumentText(args[|args| - 1])
  }

  /** The command-line block: its title, the arguments, and a line end. */
  function HeadText(args: seq<string>): string {
    "Command line arguments:\n" + ArgumentsText(args) + "\n"
  }

  /** `of << "<key> = " << value << "\n"`. */
  function ParameterText(key: string, value: string): string {
    key + " = " + value + "\n"
  }

  /** The whole file, with the two parameters as the stream printed them. */
  function InfText(args: seq<string>, maxDistance: string, stepDistance: string): string {
    HeadText(args) + "Parameters:\n"
      + ParameterText("max_distance", maxDistance)
      + ParameterText("step_distance", stepDistance)
  }

  /** The writer's loop over `argv`, then the parameter lines. */
  method WriteInfFile(args: seq<string>, maxDistance: string, stepDistance: string) returns (text: string)
    ensures text == InfText(args, maxDistance, stepDistance)
  {
    var arguments := "";
    for i := 0 to |args|
      invariant arguments == ArgumentsText(args[..i])
    {
      ArgumentsSnoc(args, i);
      if |args[i]| > 0 && args[i][0] == '-' {
        arguments := arguments + "\n";
      }
      arguments := arguments + args[i] + " ";
    }
    assert args[..|args|] == args;
    text := "Command line arguments:\n" + arguments + "\n";
    text := text + "Parameters:\n";
    text := text + ("max_distance" + " = " + maxDistance + "\n");
    text := text + ("step_distance" + " = " + stepDistance + "\n");
  }

  lemma ArgumentsSnoc(args: seq<string>, i: nat)
    requires i < |args|
    ensures ArgumentsText(args[..i + 1]) == ArgumentsText(args[..i]) + ArgumentText(args[i])
  {
    assert args[..i + 1][..i] == args[..i];
  }

  // ---------------------------------------------------------------------
  // Round trip

  /** A printed number or option name: not empty, no whitespace (so no
      newline) and no `=`. */
  predicate PlainToken(s: string) {
    s != [] && forall i :: 0 <= i < |s| ==> !IsSpace(s[i]) && s[i] != '='
  }

  /** A line without `=` contributes nothing. */
  lemma NoEqualsNoEntry(line: string)
    requires Without(line, '=')
    ensures LineEntry(line).None?
  {
    StripWithout(line, '=');
    NoOccurrences(Strip(line), '=');
    LineEntryRule(line);
  }

  /** Stripping keeps a string free of a character. */
  lemma StripWithout(line: string, c: char)
    requires Without(line, c)
    ensures Without(Strip(line), c)
  {
    var l := TrimLeft(line);
    assert forall i :: 0 <= i < |l| ==> l[i] == line[|line| - |l| + i];
    var t := TrimRight(l);
    assert forall i :: 0 <= i < |t| ==> t[i] == l[i];
  }

  lemma WithoutAppend(a: string, b: string, c: char)
    requires Without(a, c) && Without(b, c)
    ensures Without(a + b, c)
  {
    assert forall i :: 0 <= i < |a + b| ==> (a + b)[i] == if i < |a| then a[i] else b[i - |a|];
  }

  /** The key and the value around the single `=` of a stripped line. */
  lemma SplitEntry(key: string, w1: string, w2: string, value: string)
    requires AllSpace(w1) && AllSpace(w2) && PlainToken(key) && PlainToken(value)
    ensures Split(key + w1 + "=" + w2 + value, '=') == [key + w1, w2 + value]
  {
    assert Without(w1, '=') && Without(w2, '=') && Without(key, '=') && Without(value, '=');
    WithoutAppend(key, w1, '=');
    WithoutAppend(w2, value, '=');
    NoOccurrences(key + w1, '=');
    NoOccurrences(w2 + value, '=');
    SplitOne(key + w1, w2 + value, '=');
    assert key + w1 + "=" + w2 + value == (key + w1) + ['='] + (w2 + value);
  }

  /** `key w1 = w2 value w3`, with whitespace runs around the key and the
      value, yields the pair. */
  lemma EntryLine(w0: string, key: string, w1: string, w2: string, value: string, w3: string)
    requires AllSpace(w0) && AllSpace(w1) && AllSpace(w2) && AllSpace(w3)
    requires PlainToken(key) && PlainToken(value)
    ensures LineEntry(w0 + key + w1 + "=" + w2 + value + w3) == Some((key, value))
  {
    var core := key + w1 + "=" + w2 + value;
    StripCore(w0, key, w1, w2, value, w3);
    SplitEntry(key, w1, w2, value);
    assert [] + key + w1 == key + w1;
    StripPadded([], key, w1);
    assert w2 + value + [] == w2 + value;
    StripPadded(w2, value, []);
    EntryOfParts(w0 + key + w1 + "=" + w2 + value + w3, core, key + w1, w2 + value);
  }

  lemma StripCore(w0: string, key: string, w1: string, w2: string, value: string, w3: string)
    requires AllSpace(w0) && AllSpace(w3) && PlainToken(key) && PlainToken(value)
    ensures Strip(w0 + key + w1 + "=" + w2 + value + w3) == key + w1 + "=" + w2 + value
  {
    var core := key + w1 + "=" + w2 + value;
    assert w0 + key + w1 + "=" + w2 + value + w3 == w0 + core + w3;
    assert Trimmed(core) by {
      assert core[0] == key[0] && core[|core| - 1] == value[|value| - 1];
    }
    StripPadded(w0, core, w3);
  }

  lemma EntryOfParts(line: string, core: string, left: string, right: string)
    requires Strip(line) == core && Split(core, '=') == [left, right]
    ensures LineEntry(line) == Some((Strip(left), Strip(right)))
  {
  }

  /** Each of the writer's parameter lines is read back as one line. */
  lemma ParameterLine(key: string, value: string)
    requires PlainToken(key) && PlainToken(value)
    ensures ReadLines(ParameterText(key, value)) == [ParameterText(key, value)]
    ensures LineEntry(ParameterText(key, value)) == Some((key, value))
  {
    assert Without(key, '\n') && Without(value, '\n') && Without(" = ", '\n');
    WithoutAppend(key, " = ", '\n');
    WithoutAppend(key + " = ", value, '\n');
    ReadOneLine(key + " = " + value);
    assert key + " = " + value + "\n" == [] + key + " " + "=" + " " + value + "\n";
    EntryLine([], key, " ", " ", value, "\n");
  }

  /** A key of lower-case letters and underscores is a plain token. */
  lemma LowerCaseKey(key: string)
    requires key != [] && forall i :: 0 <= i < |key| ==> 'a' <= key[i] <= 'z' || key[i] == '_'
    ensures PlainToken(key)
  {
  }

  lemma ParameterKeys()
    ensures PlainToken("max_distance") && PlainToken("step_distance")
    ensures "max_distance" != "step_distance"
  {
    LowerCaseKey("max_distance");
    LowerCaseKey("step_distance");
    assert "max_distance"[0] != "step_distance"[0];
  }

  lemma HeaderLine()
    ensures ReadLines("Parameters:\n") == ["Parameters:\n"]
  {
    assert "Parameters:\n" == "Parameters:" + "\n";
    ReadOneLine("Parameters:");
  }

  /** The file ends with the header line and the two parameter lines. */
  lemma InfLines(args: seq<string>, maxDistance: string, stepDistance: string)
    requires PlainToken(maxDistance) && PlainToken(stepDistance)
    ensures ReadLines(InfText(args, maxDistance, stepDistance))
      == ReadLines(HeadText(args)) + ["Parameters:\n"]
         + [ParameterText("max_distance", maxDistance)] + [ParameterText("step_distance", stepDistance)]
  {
    var head, params := HeadText(args), "Parameters:\n";
    var l1, l2 := ParameterText("max_distance", maxDistance), ParameterText("step_distance", stepDistance);
    assert InfText(args, maxDistance, stepDistance) == head + (params + (l1 + l2));
    ReadLinesAppend(head, params + (l1 + l2));
    ReadLinesAppend(params, l1 + l2);
    ReadLinesAppend(l1, l2);
    HeaderLine();
    ParameterKeys();
    ParameterLine("max_distance", maxDistance);
    ParameterLine("step_distance", stepDistance);
    Assoc3([params], [l1], [l2]);
    Assoc3(ReadLines(head), [params] + [l1], [l2]);
    Assoc3(ReadLines(head), [params], [l1]);
  }

  lemma TakeSnoc<T>(s: seq<T>, i: nat)
    requires i < |s|
    ensures s[..i + 1] == s[..i] + [s[i]]
  {
  }

  lemma SnocParts<T>(x: seq<T>, e: T)
    ensures (x + [e])[..|x|] == x && (x + [e])[|x|] == e
  {
  }

  /** Reading one more line stores its entry, if any. */
  lemma ParsedSnoc(lines: seq<string>, line: string)
    ensures LineEntry(line).None? ==> Parsed(lines + [line]) == Parsed(lines)
    ensures LineEntry(line).Some? ==>
      Parsed(lines + [line]) == Parsed(lines)[LineEntry(line).value.0 := LineEntry(line).value.1]
  {
    SnocParts(lines, line);
    var all := lines + [line];
    assert Entries(all) == Entries(lines) + [LineEntry(line)];
    SnocParts(Entries(lines), LineEntry(line));
  }

  /** Two entries for different keys at the end of a file are both read. */
  lemma LastTwoEntries(front: seq<string>, x: string, y: string, kx: string, vx: string, ky: string, vy: string)
    requires LineEntry(x) == Some((kx, vx)) && LineEntry(y) == Some((ky, vy)) && kx != ky
    ensures kx in Parsed(front + [x] + [y]) && Parsed(front + [x] + [y])[kx] == vx
    ensures ky in Parsed(front + [x] + [y]) && Parsed(front + [x] + [y])[ky] == vy
  {
    ParsedSnoc(front, x);
    KeptKey(front + [x], y, kx);
    ParsedSnoc(front + [x], y);
  }

  /** The parameters the renderer writes are read back unchanged, whatever
      the command line was. */
  lemma InfRoundTrip(args: seq<string>, maxDistance: string, stepDistance: string)
    requires PlainToken(maxDistance) && PlainToken(stepDistance)
    ensures "max_distance" in Parsed(ReadLines(InfText(args, maxDistance, stepDistance)))
    ensures Parsed(ReadLines(InfText(args, maxDistance, stepDistance)))["max_distance"] == maxDistance
    ensures "step_distance" in Parsed(ReadLines(InfText(args, maxDistance, stepDistance)))
    ensures Parsed(ReadLines(InfText(args, maxDistance, stepDistance)))["step_distance"] == stepDistance
  {
    InfLines(args, maxDistance, stepDistance);
    ParameterKeys();
    ParameterLine("max_distance", maxDistance);
    ParameterLine("step_distance", stepDistance);
    LastTwoEntries(ReadLines(HeadText(args)) + ["Parameters:\n"],
      ParameterText("max_distance", maxDistance), ParameterText("step_distance", stepDistance),
      "max_distance", maxDistance, "step_distance", stepDistance);
  }

  /** The command-line block of `prog --key=value`: the option starts a
      line of its own. */
  lemma OptionHead(prog: string, opt: string)
    requires prog != [] && prog[0] != '-' && opt != [] && opt[0] == '-'
    ensures HeadText([prog, opt]) == "Command line arguments:\n" + ((prog + " \n") + (opt + " \n"))
  {
    assert [prog, opt][..1] == [prog] && [prog][..0] == [];
    assert ArgumentsText([prog]) == ArgumentText(prog) == prog + " ";
    assert ArgumentText(opt) == "\n" + opt + " ";
    assert ArgumentsText([prog, opt]) == (prog + " ") + ("\n" + opt + " ");
  }

  lemma TitleLine()
    ensures ReadLines("Command line arguments:\n") == ["Command line arguments:\n"]
    ensures LineEntry("Command line arguments:\n").None?
  {
    assert "Command line arguments:\n" == "Command line arguments:" + "\n";
    ReadOneLine("Command line arguments:");
    TitleWithoutEquals();
    NoEqualsNoEntry("Command line arguments:\n");
  }

  lemma TitleWithoutEquals()
    ensures Without("Command line arguments:\n", '=')
  {
  }

  lemma HeaderWithoutEntry()
    ensures LineEntry("Parameters:\n").None?
  {
    assert Without("Parameters:\n", '=');
    NoEqualsNoEntry("Parameters:\n");
  }

  lemma ProgramLine(prog: string)
    requires Without(prog, '\n') && Without(prog, '=')
    ensures ReadLines(prog + " \n") == [prog + " \n"]
    ensures LineEntry(prog + " \n").None?
  {
    WithoutAppend(prog, " ", '\n');
    ReadOneLine(prog + " ");
    assert prog + " \n" == prog + " " + "\n";
    WithoutAppend(prog, " \n", '=');
    NoEqualsNoEntry(prog + " \n");
  }

  lemma OptionLine(key: string, value: string)
    requires PlainToken(key) && PlainToken(value)
    ensures ReadLines(key + "=" + value + " \n") == [key + "=" + value + " \n"]
    ensures LineEntry(key + "=" + value + " \n") == Some((key, value))
  {
    OptionLineRead(key, value);
    assert key + "=" + value + " \n" == [] + key + [] + "=" + [] + value + " \n";
    EntryLine([], key, [], [], value, " \n");
  }

  lemma OptionLineRead(key: string, value: string)
    requires PlainToken(key) && PlainToken(value)
    ensures ReadLines(key + "=" + value + " \n") == [key + "=" + value + " \n"]
  {
    assert Without(key, '\n') && Without(value, '\n');
    WithoutAppend(key, "=", '\n');
    WithoutAppend(value, " ", '\n');
    WithoutAppend(key + "=", value + " ", '\n');
    assert key + "=" + value + " " == (key + "=") + (value + " ");
    ReadOneLine(key + "=" + value + " ");
    assert key + "=" + value + " \n" == key + "=" + value + " " + "\n";
  }

  /** The lines of the command-line block of `prog --key=value`. */
  lemma OptionHeadLines(prog: string, key: string, value: string)
    requires prog != [] && prog[0] != '-' && Without(prog, '\n') && Without(prog, '=')
    requires PlainToken(key) && key[0] == '-' && PlainToken(value)
    ensures ReadLines(HeadText([prog, key + "=" + value]))
      == ["Command line arguments:\n"] + [prog + " \n"] + [key + "=" + value + " \n"]
  {
    var opt := key + "=" + value;
    var t, p, o := "Command line arguments:\n", prog + " \n", key + "=" + value + " \n";
    assert opt[0] == '-';
    OptionHead(prog, opt);
    assert opt + " \n" == o;
    ReadLinesAppend(t, p + o);
    ReadLinesAppend(p, o);
    TitleLine();
    ProgramLine(prog);
    OptionLine(key, value);
    Assoc3([t], [p], [o]);
  }

  /** An option `--key=value` on the command line is read back as the
      entry `key -> value`. */
  lemma OptionRoundTrip(prog: string, key: string, value: string, maxDistance: string, stepDistance: string)
    requires prog != [] && prog[0] != '-' && Without(prog, '\n') && Without(prog, '=')
    requires PlainToken(key) && key[0] == '-' && PlainToken(value)
    requires PlainToken(maxDistance) && PlainToken(stepDistance)
    ensures key in Parsed(ReadLines(InfText([prog, key + "=" + value], maxDistance, stepDistance)))
    ensures Parsed(ReadLines(InfText([prog, key + "=" + value], maxDistance, stepDistance)))[key] == value
  {
    var args := [prog, key + "=" + value];
    var t, p, o := "Command line arguments:\n", prog + " \n", key + "=" + value + " \n";
    var l1, l2 := ParameterText("max_distance", maxDistance), ParameterText("step_distance", stepDistance);
    InfLines(args, maxDistance, stepDistance);
    OptionHeadLines(prog, key, value);
    TitleLine();
    ProgramLine(prog);
    OptionLine(key, value);
    HeaderLine();
    HeaderWithoutEntry();
    ParameterKeys();
    ParameterLine("max_distance", maxDistance);
    ParameterLine("step_distance", stepDistance);
    assert key != "max_distance" && key != "step_distance" by {
      assert key[0] != "max_distance"[0] && key[0] != "step_distance"[0];
    }
    OptionFileEntries(t, p, o, "Parameters:\n", l1, l2, key, value);
  }

  /** Six lines of which the third is `key -> value` and no later one has
      that key. */
  lemma OptionFileEntries(t: string, p: string, o: string, h: string, l1: string, l2: string, key: string, value: string)
    requires LineEntry(o) == Some((key, value)) && LineEntry(h).None?
    requires LineEntry(l1).Some? && LineEntry(l1).value.0 != key
    requires LineEntry(l2).Some? && LineEntry(l2).value.0 != key
    ensures key in Parsed([t] + [p] + [o] + [h] + [l1] + [l2])
    ensures Parsed([t] + [p] + [o] + [h] + [l1] + [l2])[key] == value
  {
    var a := [t] + [p];
    ParsedSnoc(a, o);
    assert key in Parsed(a + [o]) && Parsed(a + [o])[key] == value;
    ParsedSnoc(a + [o], h);
    assert Parsed(a + [o] + [h]) == Parsed(a + [o]);
    KeptKey(a + [o] + [h], l1, key);
    KeptKey(a + [o] + [h] + [l1], l2, key);
  }

  /** A line with another key keeps an entry already read. */
  lemma KeptKey(lines: seq<string>, line: string, key: string)
    requires key in Parsed(lines) && !HasKey(line, key)
    ensures key in Parsed(lines + [line]) && Parsed(lines + [line])[key] == Parsed(lines)[key]
  {
    ParsedSnoc(lines, line);
  }

  // ---------------------------------------------------------------------
  // `mdrfn` (scripts/create-rendeing-animation.py:241-245)

  /** `s.replace(pat, rep)`: every occurrence, scanning left to right
      without overlaps. */
  function Replace(s: string, pat: string, rep: string): string
    requires pat != []
    decreases |s|
  {
    if |s| < |pat| then s
    else if s[..|pat|] == pat then rep + Replace(s[|pat|..], pat, rep)
    else [s[0]] + Replace(s[1..], pat, rep)
  }

  predicate MatchAt(s: string, pat: string, i: nat)
    requires i + |pat| <= |s|
  {
    s[i..i + |pat|] == pat
  }

  predicate NoMatch(s: string, pat: string) {
    forall i: nat :: i + |pat| <= |s| ==> !MatchAt(s, pat, i)
  }

  /** The companion file name: the explicit one when given, otherwise the
      (stripped) point-cloud path with every `.dat` replaced. */
  function Mdrfn(setFn: Option<string>, pointcloud: string, extension: string): string {
    match setFn
    case Some(fn) => fn
    case None => Replace(pointcloud, ".dat", extension)
  }

  lemma NoMatchTail(s: string, pat: string)
    requires s != [] && NoMatch(s, pat)
    ensures NoMatch(s[1..], pat)
  {
    forall i: nat | i + |pat| <= |s| - 1 ensures !MatchAt(s[1..], pat, i) {
      assert s[1..][i..i + |pat|] == s[i + 1..i + 1 + |pat|];
      assert !MatchAt(s, pat, i + 1);
    }
  }

  /** A name without `.dat` is left alone. */
  lemma {:induction false} ReplaceNoMatch(s: string, pat: string, rep: string)
    requires pat != [] && NoMatch(s, pat)
    ensures Replace(s, pat, rep) == s
    decreases |s|
  {
    if |s| >= |pat| {
      assert !MatchAt(s, pat, 0);
      assert s[0..|pat|] == s[..|pat|];
      NoMatchTail(s, pat);
      ReplaceNoMatch(s[1..], pat, rep);
      assert [s[0]] + s[1..] == s;
    }
  }

  /** `.dat` cannot overlap itself, so an occurrence at the end of the
      path cannot start inside the part before it. */
  lemma {:induction false} ReplaceDatSuffix(base: string, rep: string)
    requires NoMatch(base, ".dat")
    ensures Replace(base + ".dat", ".dat", rep) == base + rep
    decreases |base|
  {
    var s := base + ".dat";
    if base == [] {
      assert s == ".dat" && s[..4] == ".dat" && s[4..] == [];
    } else {
      assert s[..4] != ".dat" by {
        if |base| >= 4 {
          assert !MatchAt(base, ".dat", 0);
          assert s[..4] == base[0..4];
        } else {
          var k := |base|;
          assert s[k] == '.' && s[..4][k] == s[k];
          assert ".dat"[k] != '.';
        }
      }
      assert s[1..] == base[1..] + ".dat";
      NoMatchTail(base, ".dat");
      ReplaceDatSuffix(base[1..], rep);
      assert [base[0]] + base[1..] == base;
    }
  }

  /** Without an explicit name, `<base>.dat` gives `<base><extension>`. */
  lemma MdrfnSibling(base: string, extension: string)
    requires NoMatch(base, ".dat")
    ensures Mdrfn(None, base + ".dat", extension) == base + extension
  {
    ReplaceDatSuffix(base, extension);
  }

  /** An explicit name is returned unchanged, whatever the point cloud. */
  lemma MdrfnExplicit(fn: string, pointcloud: string, extension: string)
    ensures Mdrfn(Some(fn), pointcloud, extension) == fn
  {
  }
}
