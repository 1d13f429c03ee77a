/** Text handling the lock-file scripts share: Python's strip, split and join on one line, exact
    pins, hash tokens and normalised names. */
module LockText {
  import opened Basics

  /** White space inside a line. */
  predicate Space(c: char) {
    c == ' ' || c == '\t' || c == '\U{1f}' || c == '\U{a0}' || c == '\U{1680}' || '\U{2000}' <= c <= '\U{200a}'
    || c == '\U{202f}' || c == '\U{205f}' || c == '\U{3000}'
  }

  predicate NoSpace(s: string) {
    forall i :: 0 <= i < |s| ==> !Space(s[i])
  }

  function LStrip(s: string): string {
    if s != "" && Space(s[0]) then LStrip(s[1..]) else s
  }

  function RStrip(s: string): string {
    if s != "" && Space(s[|s| - 1]) then RStrip(s[..|s| - 1]) else s
  }

  function Strip(s: string): string {
    RStrip(LStrip(s))
  }

  function Word(s: string): (w: string)
    ensures |w| <= |s| && NoSpace(w) && (s != "" && !Space(s[0]) ==> w != "")
  {
    if s == "" || Space(s[0]) then "" else [s[0]] + Word(s[1..])
  }

  function Split(s: string): seq<string>
    decreases |s|
  {
    if s == "" then []
    else if Space(s[0]) then Split(s[1..])
    else [Word(s)] + Split(s[|Word(s)|..])
  }

  function Join(ws: seq<string>): string {
    if ws == [] then ""
    else if |ws| == 1 then ws[0]
    else ws[0] + " " + Join(ws[1..])
  }

  predicate Words(ws: seq<string>) {
    forall i :: 0 <= i < |ws| ==> ws[i] != "" && NoSpace(ws[i])
  }

  lemma {:induction false} WordStops(w: string, rest: string)
    requires NoSpace(w) && (rest == "" || Space(rest[0]))
    ensures Word(w + rest) == w
  {
    if w == "" {
      assert w + rest == rest;
    } else {
      WordStops(w[1..], rest);
      assert (w + rest)[1..] == w[1..] + rest;
    }
  }

  /** Joined words split into the same words. */
  lemma {:induction false} SplitJoin(ws: seq<string>)
    requires Words(ws)
    ensures Split(Join(ws)) == ws
  {
    if |ws| == 1 {
      WordStops(ws[0], "");
      assert ws[0] + "" == ws[0];
    } else if |ws| > 1 {
      var rest := " " + Join(ws[1..]);
      assert Join(ws) == ws[0] + rest;
      WordStops(ws[0], rest);
      SplitJoin(ws[1..]);
      assert Join(ws)[|ws[0]|..] == rest && rest[1..] == Join(ws[1..]);
      assert Split(rest) == Split(Join(ws[1..]));
    }
  }

  lemma {:induction false} JoinAppend(ws: seq<string>, w: string)
    requires ws != []
    ensures Join(ws + [w]) == Join(ws) + " " + w
  {
    if |ws| == 1 {
      assert (ws + [w])[1..] == [w];
    } else {
      JoinAppend(ws[1..], w);
      assert (ws + [w])[1..] == ws[1..] + [w];
    }
  }

  /** Text that begins and ends without white space is not stripped. */
  lemma SolidStays(s: string)
    requires s != "" && !Space(s[0]) && !Space(s[|s| - 1])
    ensures Strip(s) == s && RStrip(s) == s
  {
  }

  const INDENT := "    "

  lemma IndentStrips(s: string)
    requires s != "" && !Space(s[0]) && !Space(s[|s| - 1])
    ensures Strip(INDENT + s) == s
  {
    assert (INDENT + s)[1..] == "   " + s;
    assert ("   " + s)[1..] == "  " + s;
    assert ("  " + s)[1..] == " " + s;
    assert (" " + s)[1..] == s;
    assert LStrip(" " + s) == LStrip(s) == s;
    assert LStrip("  " + s) == LStrip(" " + s);
    assert LStrip("   " + s) == LStrip("  " + s);
    assert LStrip(INDENT + s) == LStrip("   " + s);
  }

  lemma {:induction false} RStripShrinks(s: string)
    ensures |RStrip(s)| <= |s|
  {
    if s != "" && Space(s[|s| - 1]) {
      RStripShrinks(s[..|s| - 1]);
    }
  }

  // ---------------------------------------------------------------------------------
  // Pins

  predicate Letter(c: char) {
    'a' <= c <= 'z' || 'A' <= c <= 'Z'
  }

  predicate Digit(c: char) {
    '0' <= c <= '9'
  }

  predicate Separator(c: char) {
    c == '-' || c == '_' || c == '.'
  }

  predicate NameChar(c: char) {
    Letter(c) || Digit(c) || Separator(c)
  }

  predicate IsName(s: string) {
    s != "" && forall i :: 0 <= i < |s| ==> NameChar(s[i])
  }

  /** Versions the refresh script accepts. */
  predicate LooseVersion(s: string) {
    s != "" && forall i :: 0 <= i < |s| ==> !Space(s[i]) && s[i] != ';' && s[i] != '\\'
  }

  /** Versions the two readers accept. */
  predicate StrictVersion(s: string) {
    s != "" && Digit(s[0]) && forall i :: 0 <= i < |s| ==> NameChar(s[i]) || s[i] == '!' || s[i] == '+'
  }

  function FirstEquals(s: string): (i: nat)
    ensures i <= |s| && (i < |s| ==> s[i] == '=') && forall j :: 0 <= j < i ==> s[j] != '='
  {
    if s == "" || s[0] == '=' then 0
    else
      var i := FirstEquals(s[1..]);
      assert forall j :: 0 < j < i + 1 ==> s[j] == s[1..][j - 1];
      1 + i
  }

  /** `name==version`; a name holds no equals sign. */
  function PinText(name: string, version: string): string {
    name + "==" + version
  }

  function SplitPin(s: string): Option<(string, string)> {
    var i := FirstEquals(s);
    if i + 1 < |s| && s[i + 1] == '=' && IsName(s[..i]) then Some((s[..i], s[i + 2..])) else None
  }

  lemma SplitPinText(name: string, version: string)
    requires IsName(name)
    ensures SplitPin(PinText(name, version)) == Some((name, version))
  {
    var s := PinText(name, version);
    assert s[|name|] == '=' && forall j :: 0 <= j < |name| ==> s[j] == name[j];
    assert FirstEquals(s) == |name|;
    assert s[..|name|] == name && s[|name| + 2..] == version;
  }

  /** A pin is split exactly from the text that prints it. */
  lemma SplitPinIsExact(s: string, name: string, version: string)
    ensures SplitPin(s) == Some((name, version)) <==> IsName(name) && s == PinText(name, version)
  {
    if IsName(name) && s == PinText(name, version) {
      SplitPinText(name, version);
    }
    var i := FirstEquals(s);
    if SplitPin(s) == Some((name, version)) {
      assert s == s[..i] + "==" + s[i + 2..];
    }
  }

  /** What the version patterns accept and refuse. */
  lemma VersionPatterns()
    ensures StrictVersion("1!2.0+b-1_A") && LooseVersion("1!2.0+b-1_A")
    ensures LooseVersion("v1*") && !StrictVersion("v1*") && !StrictVersion("v1") && !StrictVersion("1*")
    ensures !LooseVersion("") && !LooseVersion("1;2") && !LooseVersion("1 2") && !LooseVersion("1\\")
  {
    var a, b, c := "1;2", "1 2", "1\\";
    assert a[1] == ';' && b[1] == ' ' && c[1] == '\\';
    var v, w := "v1*", "1*";
    assert v[0] == 'v' && w[1] == '*';
  }

  const HASH := "--hash=sha256:"

  predicate IsDigest(s: string) {
    |s| == 64 && forall i :: 0 <= i < |s| ==> Digit(s[i]) || 'a' <= s[i] <= 'f'
  }

  function HashDigest(token: string): Option<string> {
    if HASH <= token && IsDigest(token[|HASH|..]) then Some(token[|HASH|..]) else None
  }

  /** A hash option is read exactly from a digest of 64 lower-case hexadecimal digits. */
  lemma HashDigestIsExact(token: string, d: string)
    ensures HashDigest(token) == Some(d) <==>
      && |d| == 64 && (forall i :: 0 <= i < 64 ==> '0' <= d[i] <= '9' || 'a' <= d[i] <= 'f')
      && token == "--hash=sha256:" + d
  {
    if HASH <= token {
      assert token == HASH + token[|HASH|..];
    }
    if token == HASH + d {
      assert token[|HASH|..] == d;
    }
  }

  lemma HashIsWord(d: string)
    requires IsDigest(d)
    ensures HashDigest(HASH + d) == Some(d) && NoSpace(HASH + d) && (HASH + d) != "" && HASH + d != "\\"
    ensures var s := HASH + d; s[0] == '-' && !Space(s[|s| - 1]) && s[|s| - 1] != '\\'
  {
    assert (HASH + d)[|HASH|..] == d;
    assert (HASH + d)[|HASH + d| - 1] == d[63];
    assert NoSpace(HASH);
  }

  /** Text before the first hash option on the same line. */
  function CutHash(s: string): string {
    if " " + HASH <= s then ""
    else if s == "" then ""
    else [s[0]] + CutHash(s[1..])
  }

  /** A hash option begins here. */
  predicate OptionAt(s: string, i: nat) {
    i <= |s| && " --hash=sha256:" <= s[i..]
  }

  lemma OptionLater(c: char, rest: string, i: nat)
    ensures OptionAt([c] + rest, i + 1) <==> OptionAt(rest, i)
  {
    if i <= |rest| {
      assert ([c] + rest)[i + 1..] == rest[i..];
    }
  }

  /** `cut` ends at the first hash option of the text, or is all of it. */
  predicate EndsAtOption(cut: string, s: string) {
    cut <= s && (cut != s ==> OptionAt(s, |cut|)) && forall i :: 0 <= i < |cut| ==> !OptionAt(s, i)
  }

  lemma CutGrows(c: char, rest: string, cut: string)
    requires EndsAtOption(cut, rest) && !OptionAt([c] + rest, 0)
    ensures EndsAtOption([c] + cut, [c] + rest)
  {
    OptionLater(c, rest, |cut|);
    forall i | 0 < i < |cut| + 1 ensures !OptionAt([c] + rest, i) {
      OptionLater(c, rest, i - 1);
    }
  }

  lemma {:induction false} CutIsFirst(s: string)
    ensures EndsAtOption(CutHash(s), s)
    decreases |s|
  {
    assert s[0..] == s;
    if !(" " + HASH <= s) && s != "" {
      CutIsFirst(s[1..]);
      assert s == [s[0]] + s[1..];
      CutGrows(s[0], s[1..], CutHash(s[1..]));
    }
  }

  lemma {:induction false} NothingToCut(w: string)
    requires NoSpace(w)
    ensures CutHash(w + " \\") == w + " \\"
  {
    if w == "" {
      assert " \\"[1..] == "\\" && "\\"[1..] == "";
      assert CutHash("") == "" && CutHash("\\") == "\\";
      assert w + " \\" == " \\";
    } else {
      NothingToCut(w[1..]);
      assert (w + " \\")[1..] == w[1..] + " \\";
      assert (w + " \\")[0] == w[0] != ' ';
    }
  }

  // ---------------------------------------------------------------------------------
  // Names

  function Lower(c: char): char {
    if 'A' <= c <= 'Z' then 'a' + (c - 'A') else c
  }

  function DropSeparators(s: string): (r: string)
    ensures |r| <= |s| && (r == "" || !Separator(r[0]))
  {
    if s != "" && Separator(s[0]) then DropSeparators(s[1..]) else s
  }

  /** Normalised name of PEP 503: lower case, runs of separators as one hyphen. */
  function Normal(s: string): (r: string)
    decreases |s|
  {
    if s == "" then ""
    else if Separator(s[0]) then "-" + Normal(DropSeparators(s[1..]))
    else [Lower(s[0])] + Normal(s[1..])
  }

  lemma {:induction false} NormalStart(s: string)
    ensures (Normal(s) == "" <==> s == "") && (s != "" ==> (Separator(Normal(s)[0]) <==> Separator(s[0])))
  {
  }

  /** A normalised name is its own normal form. */
  lemma {:induction false} NormalIsNormal(s: string)
    ensures Normal(Normal(s)) == Normal(s)
    decreases |s|
  {
    if s != "" {
      if Separator(s[0]) {
        var rest := DropSeparators(s[1..]);
        NormalIsNormal(rest);
        NormalStart(rest);
        assert ("-" + Normal(rest))[1..] == Normal(rest);
        assert DropSeparators(Normal(rest)) == Normal(rest);
      } else {
        NormalIsNormal(s[1..]);
        assert ([Lower(s[0])] + Normal(s[1..]))[1..] == Normal(s[1..]);
        assert Lower(Lower(s[0])) == Lower(s[0]) && !Separator(Lower(s[0]));
      }
    }
  }

  /** The characters of a text that are no separators, in lower case. */
  function Plain(s: string): string {
    if s == "" then "" else (if Separator(s[0]) then "" else [Lower(s[0])]) + Plain(s[1..])
  }

  lemma {:induction false} PlainDrops(s: string)
    ensures Plain(DropSeparators(s)) == Plain(s)
  {
    if s != "" && Separator(s[0]) {
      PlainDrops(s[1..]);
    }
  }

  /** Normalising keeps the lower-case text between the separators. */
  lemma {:induction false} NormalKeepsText(s: string)
    ensures Plain(Normal(s)) == Plain(s)
    decreases |s|
  {
    if s != "" {
      if Separator(s[0]) {
        var rest := DropSeparators(s[1..]);
        NormalKeepsText(rest);
        PlainDrops(s[1..]);
        assert ("-" + Normal(rest))[1..] == Normal(rest);
      } else {
        NormalKeepsText(s[1..]);
        assert ([Lower(s[0])] + Normal(s[1..]))[1..] == Normal(s[1..]);
      }
    }
  }

  /** Single hyphens are the only separators, and nothing is in upper case. */
  predicate InNormalForm(r: string) {
    && (forall i :: 0 <= i < |r| ==> !('A' <= r[i] <= 'Z') && r[i] != '_' && r[i] != '.')
    && (forall i :: 0 <= i < |r| - 1 ==> !(r[i] == '-' && r[i + 1] == '-'))
  }

  lemma FormGrows(c: char, r: string)
    requires InNormalForm(r) && !('A' <= c <= 'Z') && c != '_' && c != '.' && (c == '-' && r != "" ==> r[0] != '-')
    ensures InNormalForm([c] + r)
  {
  }

  lemma {:induction false} NormalForm(s: string)
    ensures InNormalForm(Normal(s))
    decreases |s|
  {
    if s != "" {
      if Separator(s[0]) {
        var rest := DropSeparators(s[1..]);
        NormalForm(rest);
        NormalStart(rest);
        FormGrows('-', Normal(rest));
      } else {
        NormalForm(s[1..]);
        FormGrows(Lower(s[0]), Normal(s[1..]));
      }
    }
  }
}
