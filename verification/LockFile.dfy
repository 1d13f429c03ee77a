/** The hash-pinned Python lock file: the script that prints it and reads its own output
    (scripts/refresh-python-lock-hashes.py), and the two readers written separately from it
    (scripts/verify-reproducibility.py, scripts/postgres-backup-crypto.py). A file is the list of
    its lines. */
module LockFile {
  import opened Basics
  import opened LockText

  type Pin = (string, string)

  type Pins = map<string, string>

  /** A blank or comment line. */
  predicate Blank(raw: string) {
    var line := Strip(raw);
    line == "" || line[0] == '#'
  }

  // ---------------------------------------------------------------------------------
  // The refresh script

  datatype Draft = Rejected | Draft(header: seq<string>, pins: seq<Pin>)

  function LoosePin(requirement: string): Option<Pin> {
    var n := |requirement| - 1;
    var text :=
      if requirement != "" && requirement[n] == '\\' then
        if RStrip(requirement[..n]) != requirement[..n] then RStrip(requirement[..n]) else ""
      else requirement;
    match SplitPin(text)
    case Some(pin) => if LooseVersion(pin.1) then Some(pin) else None
    case None => None
  }

  function ReadLine(d: Draft, raw: string): Draft {
    if d.Rejected? then d
    else if Blank(raw) then (if d.pins == [] then d.(header := d.header + [raw]) else d)
    else if HASH <= Strip(raw) then d
    else
      match LoosePin(RStrip(CutHash(Strip(raw))))
      case Some(pin) => d.(pins := d.pins + [pin])
      case None => Rejected
  }

  function ReadLines(d: Draft, lines: seq<string>): Draft
    decreases |lines|
  {
    if lines == [] then d else ReadLines(ReadLine(d, lines[0]), lines[1..])
  }

  /** Header and pins of a file that holds at least one pin. */
  function ReadPins(lines: seq<string>): Option<(seq<string>, seq<Pin>)> {
    match ReadLines(Draft([], []), lines)
    case Draft(header, pins) => if pins == [] then None else Some((header, pins))
    case Rejected => None
  }

  function Padded(header: seq<string>): seq<string> {
    if header != [] && Strip(header[|header| - 1]) != "" then header + [""] else header
  }

  function HashLines(hashes: seq<string>): seq<string> {
    if hashes == [] then []
    else if |hashes| == 1 then [INDENT + HASH + hashes[0]]
    else [INDENT + HASH + hashes[0] + " \\"] + HashLines(hashes[1..])
  }

  function PinLines(pin: Pin, hashes: seq<string>): seq<string> {
    [PinText(pin.0, pin.1) + " \\"] + HashLines(hashes)
  }

  function AllPinLines(pins: seq<Pin>, wheels: Pin -> seq<string>): seq<string> {
    if pins == [] then [] else PinLines(pins[0], wheels(pins[0])) + AllPinLines(pins[1..], wheels)
  }

  function Print(header: seq<string>, pins: seq<Pin>, wheels: Pin -> seq<string>): seq<string> {
    Padded(header) + AllPinLines(pins, wheels)
  }

  /** The package index names hashes for these pins: at least one, all well-formed, none twice. */
  predicate Published(pins: seq<Pin>, wheels: Pin -> seq<string>) {
    forall i :: 0 <= i < |pins| ==> GoodHashes(wheels(pins[i]))
  }

  predicate GoodHashes(hashes: seq<string>) {
    hashes != [] && Distinct(hashes) && forall i :: 0 <= i < |hashes| ==> IsDigest(hashes[i])
  }

  predicate LoosePins(pins: seq<Pin>) {
    forall i :: 0 <= i < |pins| ==> IsName(pins[i].0) && LooseVersion(pins[i].1)
  }

  predicate AllBlank(header: seq<string>) {
    forall i :: 0 <= i < |header| ==> Blank(header[i])
  }

  /** Refreshing with the hashes the index names. */
  function Refresh(lines: seq<string>, wheels: Pin -> seq<string>): Option<seq<string>> {
    match ReadPins(lines)
    case Some((header, pins)) => Some(Print(header, pins, wheels))
    case None => None
  }

  /** The refresh script reads a pin exactly from its text, alone or continued: with white space
      and a continuation mark behind it. */
  lemma LoosePinIsExact(requirement: string, name: string, version: string)
    ensures LoosePin(requirement) == Some((name, version)) <==>
      && IsName(name) && LooseVersion(version)
      && (requirement == PinText(name, version)
          || (requirement != "" && requirement[|requirement| - 1] == '\\'
              && RStrip(requirement[..|requirement| - 1]) == PinText(name, version) != requirement[..|requirement| - 1]))
  {
    var text := PinText(name, version);
    if IsName(name) && LooseVersion(version) {
      assert text[|text| - 1] == version[|version| - 1];
    }
    SplitPinIsExact(requirement, name, version);
    if requirement != "" {
      SplitPinIsExact(RStrip(requirement[..|requirement| - 1]), name, version);
    }
    SplitPinIsExact("", name, version);
  }

  // ---------------------------------------------------------------------------------
  // The readers

  /** Logical requirements so far and the parts of an unfinished one. */
  datatype Reading = Broken | Reading(done: seq<string>, open: seq<string>)

  function Body(line: string): string
    requires line != ""
  {
    if line[|line| - 1] == '\\' then RStrip(line[..|line| - 1]) else line
  }

  function Gather(r: Reading, line: string): Reading
    requires r.Reading? && line != ""
  {
    var open := r.open + [Body(line)];
    if line[|line| - 1] == '\\' then Reading(r.done, open) else Reading(r.done + [Join(open)], [])
  }

  function VerifierLine(r: Reading, raw: string): Reading {
    if r.Broken? then r
    else if Blank(raw) then (if r.open != [] then Broken else r)
    else Gather(r, Strip(raw))
  }

  /** The backup script also refuses a part without text. */
  function BackupLine(r: Reading, raw: string): Reading {
    if r.Broken? then r
    else if Blank(raw) then (if r.open != [] then Broken else r)
    else if Body(Strip(raw)) == "" then Broken
    else Gather(r, Strip(raw))
  }

  function VerifierLines(r: Reading, lines: seq<string>): Reading
    decreases |lines|
  {
    if lines == [] then r else VerifierLines(VerifierLine(r, lines[0]), lines[1..])
  }

  function BackupLines(r: Reading, lines: seq<string>): Reading
    decreases |lines|
  {
    if lines == [] then r else BackupLines(BackupLine(r, lines[0]), lines[1..])
  }

  /** Distinct well-formed hashes after the pin, and at least one. */
  predicate HashTokens(tokens: seq<string>) {
    && |tokens| >= 2
    && (forall i :: 1 <= i < |tokens| ==> HashDigest(tokens[i]).Some?)
    && (forall i, j :: 1 <= i < j < |tokens| ==> tokens[i] != tokens[j])
  }

  /** The tokens behind a pin are accepted exactly when they are the options of good hashes. */
  lemma HashTokensAreHashes(tokens: seq<string>)
    ensures HashTokens(tokens) <==>
      tokens != [] && exists hashes :: GoodHashes(hashes) && |tokens| == |hashes| + 1 && forall i :: 0 <= i < |hashes| ==> tokens[i + 1] == HASH + hashes[i]
  {
    if HashTokens(tokens) {
      var hashes := seq(|tokens| - 1, i requires 0 <= i < |tokens| - 1 => HashDigest(tokens[i + 1]).value);
      forall i | 0 <= i < |hashes| ensures IsDigest(hashes[i]) && tokens[i + 1] == HASH + hashes[i] {
        HashDigestIsExact(tokens[i + 1], hashes[i]);
      }
      assert GoodHashes(hashes);
    }
    if hashes :| GoodHashes(hashes) && |tokens| == |hashes| + 1 && forall i :: 0 <= i < |hashes| ==> tokens[i + 1] == HASH + hashes[i] {
      forall i | 1 <= i < |tokens| ensures HashDigest(tokens[i]) == Some(hashes[i - 1]) {
        HashDigestIsExact(tokens[i], hashes[i - 1]);
        assert tokens[i - 1 + 1] == HASH + hashes[i - 1];
      }
      forall i, j | 1 <= i < j < |tokens| ensures tokens[i] != tokens[j] {
        assert hashes[i - 1] != hashes[j - 1];
      }
    }
  }

  function StrictPin(token: string): Option<Pin> {
    match SplitPin(token)
    case Some(pin) => if StrictVersion(pin.1) then Some(pin) else None
    case None => None
  }

  /** The pin of one requirement. */
  function Requirement(text: string): Option<Pin> {
    var tokens := Split(text);
    if HashTokens(tokens) then StrictPin(tokens[0]) else None
  }

  function Collect(requirements: seq<string>): Option<Pins> {
    if requirements == [] then Some(map[])
    else
      var n := |requirements| - 1;
      match Collect(requirements[..n])
      case None => None
      case Some(pins) =>
        match Requirement(requirements[n])
        case None => None
        case Some(pin) => if Normal(pin.0) in pins then None else Some(pins[Normal(pin.0) := pin.1])
  }

  function Finish(r: Reading): Option<Pins> {
    match r
    case Broken => None
    case Reading(done, open) => if open != [] then None else Collect(done)
  }

  function VerifierPins(lines: seq<string>): Option<Pins> {
    match Finish(VerifierLines(Reading([], []), lines))
    case None => None
    case Some(pins) => if pins == map[] then None else Some(pins)
  }

  function BackupPins(lines: seq<string>): Option<Pins> {
    Finish(BackupLines(Reading([], []), lines))
  }

  // ---------------------------------------------------------------------------------
  // The two readers agree

  /** A line that is nothing but a continuation mark. */
  predicate Bare(raw: string) {
    !Blank(raw) && Body(Strip(raw)) == ""
  }

  predicate AnyBare(lines: seq<string>) {
    exists i :: 0 <= i < |lines| && Bare(lines[i])
  }

  lemma {:induction false} BrokenStays(lines: seq<string>)
    ensures VerifierLines(Broken, lines) == Broken && BackupLines(Broken, lines) == Broken
  {
    if lines != [] {
      BrokenStays(lines[1..]);
    }
  }

  lemma {:induction false} BackupIsStricter(r: Reading, lines: seq<string>)
    ensures BackupLines(r, lines) == if AnyBare(lines) then Broken else VerifierLines(r, lines)
    decreases |lines|
  {
    if lines != [] {
      BackupIsStricter(BackupLine(r, lines[0]), lines[1..]);
      BrokenStays(lines[1..]);
      assert AnyBare(lines) <==> Bare(lines[0]) || AnyBare(lines[1..]) by {
        if i :| 1 <= i < |lines| && Bare(lines[i]) {
          assert lines[1..][i - 1] == lines[i];
        }
      }
    }
  }

  /** The backup script accepts a non-empty set of pins exactly when the verifier accepts the same
      pins and no line is a bare continuation mark. */
  lemma ReadersAgree(lines: seq<string>, pins: Pins)
    ensures BackupPins(lines) == Some(pins) && pins != map[] <==> VerifierPins(lines) == Some(pins) && !AnyBare(lines)
  {
    BackupIsStricter(Reading([], []), lines);
  }

  // ---------------------------------------------------------------------------------
  // What the printed lines say

  lemma PinLineShape(pin: Pin)
    requires IsName(pin.0) && LooseVersion(pin.1)
    ensures var text := PinText(pin.0, pin.1);
      && NoSpace(text) && text != "" && text[|text| - 1] != '\\'
      && Strip(text + " \\") == text + " \\" && RStrip(text + " \\") == text + " \\" && RStrip(text + " ") == text
      && !Blank(text + " \\") && Body(text + " \\") == text && !(HASH <= text + " \\")
  {
    var text := PinText(pin.0, pin.1);
    var line := text + " \\";
    assert forall i :: 0 <= i < |text| ==> text[i] == if i < |pin.0| then pin.0[i] else if i < |pin.0| + 2 then '=' else pin.1[i - |pin.0| - 2];
    SolidStays(line);
    assert line[..|line| - 1] == text + " ";
    assert (text + " ")[..|text|] == text;
    assert RStrip(text + " ") == RStrip(text) == text;
    NotHash(pin, line);
  }

  lemma NotHash(pin: Pin, line: string)
    requires IsName(pin.0) && PinText(pin.0, pin.1) <= line
    ensures !(HASH <= line)
  {
    var k := if |pin.0| < 6 then |pin.0| else if |pin.0| == 6 then 7 else 6;
    assert line[k] == PinText(pin.0, pin.1)[k] != HASH[k];
  }

  lemma HashLineShape(d: string)
    requires IsDigest(d)
    ensures Strip(INDENT + HASH + d) == HASH + d && Strip(INDENT + HASH + d + " \\") == HASH + d + " \\"
    ensures Body(HASH + d) == HASH + d && Body(HASH + d + " \\") == HASH + d
    ensures !Blank(INDENT + HASH + d) && !Blank(INDENT + HASH + d + " \\")
  {
    var token := HASH + d;
    HashIsWord(d);
    assert INDENT + HASH + d == INDENT + token && INDENT + HASH + d + " \\" == INDENT + (token + " \\");
    IndentStrips(token);
    IndentStrips(token + " \\");
    assert (token + " \\")[..|token| + 1] == token + " ";
    assert (token + " ")[..|token|] == token;
    assert RStrip(token + " ") == RStrip(token) == token;
  }

  /** What the readers make of one hash line. */
  lemma VerifierReadsHash(done: seq<string>, open: seq<string>, d: string)
    requires IsDigest(d)
    ensures VerifierLine(Reading(done, open), INDENT + HASH + d) == Reading(done + [Join(open + [HASH + d])], [])
    ensures VerifierLine(Reading(done, open), INDENT + HASH + d + " \\") == Reading(done, open + [HASH + d])
    ensures !Bare(INDENT + HASH + d) && !Bare(INDENT + HASH + d + " \\")
  {
    HashLineShape(d);
    HashIsWord(d);
  }

  lemma RefreshSkipsHash(draft: Draft, d: string)
    requires IsDigest(d)
    ensures ReadLine(draft, INDENT + HASH + d) == draft && ReadLine(draft, INDENT + HASH + d + " \\") == draft
  {
    HashLineShape(d);
  }

  lemma VerifierReadsPinLine(done: seq<string>, pin: Pin)
    requires IsName(pin.0) && LooseVersion(pin.1)
    ensures VerifierLine(Reading(done, []), PinText(pin.0, pin.1) + " \\") == Reading(done, [PinText(pin.0, pin.1)])
    ensures !Bare(PinText(pin.0, pin.1) + " \\")
  {
    PinLineShape(pin);
    assert [] + [PinText(pin.0, pin.1)] == [PinText(pin.0, pin.1)];
  }

  function HashWords(hashes: seq<string>): seq<string> {
    if hashes == [] then [] else [HASH + hashes[0]] + HashWords(hashes[1..])
  }

  function RequirementText(pin: Pin, hashes: seq<string>): string {
    Join([PinText(pin.0, pin.1)] + HashWords(hashes))
  }

  predicate Digests(hashes: seq<string>) {
    forall i :: 0 <= i < |hashes| ==> IsDigest(hashes[i])
  }

  lemma {:induction false} VerifierSkipsBlank(r: Reading, header: seq<string>, rest: seq<string>)
    requires r.Reading? && r.open == [] && AllBlank(header)
    ensures VerifierLines(r, header + rest) == VerifierLines(r, rest)
  {
    if header == [] {
      assert header + rest == rest;
    } else {
      assert (header + rest)[1..] == header[1..] + rest;
      VerifierSkipsBlank(r, header[1..], rest);
    }
  }

  lemma {:induction false} HashLinesSplit(hashes: seq<string>, rest: seq<string>)
    requires hashes != []
    ensures var lines, text := HashLines(hashes) + rest, INDENT + HASH + hashes[0];
      && lines != [] && lines[0] == (if |hashes| == 1 then text else text + " \\")
      && lines[1..] == (if |hashes| == 1 then rest else HashLines(hashes[1..]) + rest)
  {
    var text := INDENT + HASH + hashes[0];
    if |hashes| == 1 {
      assert ([text] + rest)[1..] == rest;
    } else {
      var more := HashLines(hashes[1..]);
      assert ([text + " \\"] + more + rest)[1..] == more + rest;
    }
  }

  lemma {:induction false} HashWordsSplit(open: seq<string>, hashes: seq<string>)
    requires hashes != []
    ensures open + HashWords(hashes) == open + [HASH + hashes[0]] + HashWords(hashes[1..])
    ensures |hashes| == 1 ==> HashWords(hashes) == [HASH + hashes[0]]
  {
    assert HashWords(hashes) == [HASH + hashes[0]] + HashWords(hashes[1..]);
    if |hashes| == 1 {
      assert HashWords(hashes[1..]) == [];
    }
  }

  lemma {:induction false} PinLinesSplit(pins: seq<Pin>, wheels: Pin -> seq<string>)
    requires pins != []
    ensures var lines := AllPinLines(pins, wheels);
      && lines != [] && lines[0] == PinText(pins[0].0, pins[0].1) + " \\"
      && lines[1..] == HashLines(wheels(pins[0])) + AllPinLines(pins[1..], wheels)
  {
    var first, hashes, more := PinText(pins[0].0, pins[0].1) + " \\", HashLines(wheels(pins[0])), AllPinLines(pins[1..], wheels);
    assert ([first] + hashes + more)[1..] == hashes + more;
  }

  /** The hash lines complete the requirement that is open. */
  lemma {:induction false} VerifierReadsHashes(done: seq<string>, open: seq<string>, hashes: seq<string>, rest: seq<string>)
    requires hashes != [] && Digests(hashes)
    ensures VerifierLines(Reading(done, open), HashLines(hashes) + rest)
      == VerifierLines(Reading(done + [Join(open + HashWords(hashes))], []), rest)
    decreases |hashes|
  {
    var token := HASH + hashes[0];
    VerifierReadsHash(done, open, hashes[0]);
    HashLinesSplit(hashes, rest);
    HashWordsSplit(open, hashes);
    if |hashes| > 1 {
      VerifierReadsHashes(done, open + [token], hashes[1..], rest);
    }
  }

  lemma VerifierReadsPin(done: seq<string>, pin: Pin, hashes: seq<string>, rest: seq<string>)
    requires IsName(pin.0) && LooseVersion(pin.1) && hashes != [] && Digests(hashes)
    ensures VerifierLines(Reading(done, []), PinLines(pin, hashes) + rest) == VerifierLines(Reading(done + [RequirementText(pin, hashes)], []), rest)
  {
    var lines := PinLines(pin, hashes) + rest;
    VerifierReadsPinLine(done, pin);
    assert lines[0] == PinText(pin.0, pin.1) + " \\" && lines[1..] == HashLines(hashes) + rest;
    VerifierReadsHashes(done, [PinText(pin.0, pin.1)], hashes, rest);
  }

  function Requirements(pins: seq<Pin>, wheels: Pin -> seq<string>): seq<string> {
    if pins == [] then [] else [RequirementText(pins[0], wheels(pins[0]))] + Requirements(pins[1..], wheels)
  }

  lemma {:induction false} VerifierReadsPins(done: seq<string>, pins: seq<Pin>, wheels: Pin -> seq<string>)
    requires LoosePins(pins) && Published(pins, wheels)
    ensures VerifierLines(Reading(done, []), AllPinLines(pins, wheels)) == Reading(done + Requirements(pins, wheels), [])
    decreases |pins|
  {
    if pins == [] {
      assert done + [] == done;
    } else {
      var text := RequirementText(pins[0], wheels(pins[0]));
      VerifierReadsPin(done, pins[0], wheels(pins[0]), AllPinLines(pins[1..], wheels));
      VerifierReadsPins(done + [text], pins[1..], wheels);
      assert done + [text] + Requirements(pins[1..], wheels) == done + Requirements(pins, wheels);
    }
  }

  lemma {:induction false} HashWordsAre(hashes: seq<string>)
    requires Digests(hashes)
    ensures |HashWords(hashes)| == |hashes| && forall i :: 0 <= i < |hashes| ==> HashWords(hashes)[i] == HASH + hashes[i]
  {
    if hashes != [] {
      HashWordsAre(hashes[1..]);
    }
  }

  lemma PrintedTokens(first: string, hashes: seq<string>)
    requires GoodHashes(hashes) && first != "" && NoSpace(first)
    ensures var tokens := [first] + HashWords(hashes); Words(tokens) && HashTokens(tokens)
  {
    var tokens := [first] + HashWords(hashes);
    HashWordsAre(hashes);
    forall i | 1 <= i < |tokens| ensures tokens[i] == HASH + hashes[i - 1] && HashDigest(tokens[i]).Some? && tokens[i] != "" && NoSpace(tokens[i]) {
      HashIsWord(hashes[i - 1]);
    }
    forall i, j | 1 <= i < j < |tokens| ensures tokens[i] != tokens[j] {
      assert tokens[i][|HASH|..] == hashes[i - 1] && tokens[j][|HASH|..] == hashes[j - 1];
    }
  }

  /** A printed requirement reads as its pin exactly when the version is strict. */
  lemma PrintedRequirement(pin: Pin, hashes: seq<string>)
    requires IsName(pin.0) && LooseVersion(pin.1) && GoodHashes(hashes)
    ensures Requirement(RequirementText(pin, hashes)) == if StrictVersion(pin.1) then Some(pin) else None
  {
    var text := PinText(pin.0, pin.1);
    PinLineShape(pin);
    PrintedTokens(text, hashes);
    SplitJoin([text] + HashWords(hashes));
    SplitPinText(pin.0, pin.1);
  }

  /** Versions by normalised name. */
  function Versions(pins: seq<Pin>): Pins {
    if pins == [] then map[] else Versions(pins[..|pins| - 1])[Normal(pins[|pins| - 1].0) := pins[|pins| - 1].1]
  }

  predicate DistinctNames(pins: seq<Pin>) {
    forall i, j :: 0 <= i < j < |pins| ==> Normal(pins[i].0) != Normal(pins[j].0)
  }

  predicate StrictPins(pins: seq<Pin>) {
    forall i :: 0 <= i < |pins| ==> StrictVersion(pins[i].1)
  }

  lemma {:induction false} VersionsNamed(pins: seq<Pin>)
    ensures forall name :: name in Versions(pins) <==> exists i :: 0 <= i < |pins| && Normal(pins[i].0) == name
    decreases |pins|
  {
    if pins != [] {
      VersionsNamed(pins[..|pins| - 1]);
      assert forall i :: 0 <= i < |pins| - 1 ==> pins[..|pins| - 1][i] == pins[i];
    }
  }

  /** Under distinct names every pin keeps its version. */
  lemma {:induction false} VersionsKept(pins: seq<Pin>, i: nat)
    requires DistinctNames(pins) && i < |pins|
    ensures Normal(pins[i].0) in Versions(pins) && Versions(pins)[Normal(pins[i].0)] == pins[i].1
    decreases |pins|
  {
    if i < |pins| - 1 {
      VersionsKept(pins[..|pins| - 1], i);
    }
  }

  lemma {:induction false} RequirementsAt(pins: seq<Pin>, wheels: Pin -> seq<string>)
    ensures |Requirements(pins, wheels)| == |pins|
    ensures forall i :: 0 <= i < |pins| ==> Requirements(pins, wheels)[i] == RequirementText(pins[i], wheels(pins[i]))
  {
    if pins != [] {
      RequirementsAt(pins[1..], wheels);
    }
  }

  lemma RequirementsPrefix(pins: seq<Pin>, wheels: Pin -> seq<string>, n: nat)
    requires n <= |pins|
    ensures |Requirements(pins, wheels)| == |pins| && Requirements(pins, wheels)[..n] == Requirements(pins[..n], wheels)
  {
    RequirementsAt(pins, wheels);
    RequirementsAt(pins[..n], wheels);
  }

  lemma DistinctStep(pins: seq<Pin>)
    requires pins != []
    ensures var n := |pins| - 1;
      DistinctNames(pins) <==> DistinctNames(pins[..n]) && Normal(pins[n].0) !in Versions(pins[..n])
  {
    var n := |pins| - 1;
    VersionsNamed(pins[..n]);
    assert forall i :: 0 <= i < n ==> pins[..n][i] == pins[i];
  }

  lemma StrictStep(pins: seq<Pin>)
    requires pins != []
    ensures StrictPins(pins) <==> StrictPins(pins[..|pins| - 1]) && StrictVersion(pins[|pins| - 1].1)
  {
    assert forall i :: 0 <= i < |pins| - 1 ==> pins[..|pins| - 1][i] == pins[i];
  }

  lemma {:induction false} CollectPrinted(pins: seq<Pin>, wheels: Pin -> seq<string>)
    requires LoosePins(pins) && Published(pins, wheels)
    ensures Collect(Requirements(pins, wheels)) == if StrictPins(pins) && DistinctNames(pins) then Some(Versions(pins)) else None
    decreases |pins|
  {
    if pins != [] {
      var n := |pins| - 1;
      CollectPrinted(pins[..n], wheels);
      RequirementsPrefix(pins, wheels, n);
      assert Requirements(pins, wheels)[n] == RequirementText(pins[n], wheels(pins[n])) by {
        RequirementsAt(pins, wheels);
      }
      PrintedRequirement(pins[n], wheels(pins[n]));
      DistinctStep(pins);
      StrictStep(pins);
    }
  }

  lemma VerifierGathersPrinted(header: seq<string>, pins: seq<Pin>, wheels: Pin -> seq<string>)
    requires AllBlank(header) && LoosePins(pins) && Published(pins, wheels)
    ensures VerifierLines(Reading([], []), Print(header, pins, wheels)) == Reading(Requirements(pins, wheels), [])
  {
    PaddedIsBlank(header);
    VerifierSkipsBlank(Reading([], []), Padded(header), AllPinLines(pins, wheels));
    VerifierReadsPins([], pins, wheels);
    assert [] + Requirements(pins, wheels) == Requirements(pins, wheels);
  }

  lemma {:induction false} VersionsNotEmpty(pins: seq<Pin>)
    requires pins != []
    ensures Versions(pins) != map[]
  {
    assert Normal(pins[|pins| - 1].0) in Versions(pins);
  }

  /** The verifier reads a printed file back to the same versions by normalised name if and only
      if every version fits its stricter pattern and no two names normalise alike. */
  lemma VerifierReadsPrinted(header: seq<string>, pins: seq<Pin>, wheels: Pin -> seq<string>)
    requires AllBlank(header) && LoosePins(pins) && Published(pins, wheels) && pins != []
    ensures VerifierPins(Print(header, pins, wheels)) == if StrictPins(pins) && DistinctNames(pins) then Some(Versions(pins)) else None
  {
    VerifierGathersPrinted(header, pins, wheels);
    CollectPrinted(pins, wheels);
    VersionsNotEmpty(pins);
  }

  lemma PaddedIsBlank(header: seq<string>)
    requires AllBlank(header)
    ensures AllBlank(Padded(header)) && Padded(Padded(header)) == Padded(header)
  {
  }

  lemma {:induction false} PrintedIsNotBare(pins: seq<Pin>, wheels: Pin -> seq<string>)
    requires LoosePins(pins) && Published(pins, wheels)
    ensures !AnyBare(AllPinLines(pins, wheels))
    decreases |pins|
  {
    if pins != [] {
      VerifierReadsPinLine([], pins[0]);
      HashesAreNotBare(wheels(pins[0]));
      PrintedIsNotBare(pins[1..], wheels);
    }
  }

  lemma {:induction false} HashesAreNotBare(hashes: seq<string>)
    requires Digests(hashes)
    ensures !AnyBare(HashLines(hashes))
  {
    if hashes != [] {
      VerifierReadsHash([], [], hashes[0]);
      HashesAreNotBare(hashes[1..]);
    }
  }

  lemma PrintedHasNoBareLine(header: seq<string>, pins: seq<Pin>, wheels: Pin -> seq<string>)
    requires AllBlank(header) && LoosePins(pins) && Published(pins, wheels)
    ensures !AnyBare(Print(header, pins, wheels))
  {
    PaddedIsBlank(header);
    PrintedIsNotBare(pins, wheels);
    var lines := Print(header, pins, wheels);
    forall i | 0 <= i < |lines| ensures !Bare(lines[i]) {
      assert lines[i] == if i < |Padded(header)| then Padded(header)[i] else AllPinLines(pins, wheels)[i - |Padded(header)|];
    }
  }

  lemma {:induction false} CollectIsNotEmpty(requirements: seq<string>)
    requires requirements != [] && Collect(requirements).Some?
    ensures Collect(requirements).value != map[]
  {
    var n := |requirements| - 1;
    var name := Normal(Requirement(requirements[n]).value.0);
    assert name in Collect(requirements).value;
  }

  /** So does the backup script. */
  lemma BackupReadsPrinted(header: seq<string>, pins: seq<Pin>, wheels: Pin -> seq<string>)
    requires AllBlank(header) && LoosePins(pins) && Published(pins, wheels) && pins != []
    ensures BackupPins(Print(header, pins, wheels)) == VerifierPins(Print(header, pins, wheels))
  {
    PrintedHasNoBareLine(header, pins, wheels);
    BackupIsStricter(Reading([], []), Print(header, pins, wheels));
    VerifierGathersPrinted(header, pins, wheels);
    assert Requirements(pins, wheels) != [];
    if Collect(Requirements(pins, wheels)).Some? {
      CollectIsNotEmpty(Requirements(pins, wheels));
    }
  }

  // ---------------------------------------------------------------------------------
  // Refreshing twice

  lemma {:induction false} ReadsBlank(d: Draft, header: seq<string>, rest: seq<string>)
    requires d.Draft? && d.pins == [] && AllBlank(header)
    ensures ReadLines(d, header + rest) == ReadLines(d.(header := d.header + header), rest)
    decreases |header|
  {
    if header == [] {
      assert header + rest == rest && d.header + header == d.header;
    } else {
      assert (header + rest)[1..] == header[1..] + rest;
      ReadsBlank(d.(header := d.header + [header[0]]), header[1..], rest);
      assert d.header + [header[0]] + header[1..] == d.header + header;
    }
  }

  lemma {:induction false} SkipsHashes(d: Draft, hashes: seq<string>, rest: seq<string>)
    requires d.Draft? && Digests(hashes)
    ensures ReadLines(d, HashLines(hashes) + rest) == ReadLines(d, rest)
    decreases |hashes|
  {
    if hashes == [] {
      assert HashLines(hashes) + rest == rest;
    } else {
      RefreshSkipsHash(d, hashes[0]);
      HashLinesSplit(hashes, rest);
      SkipsHashes(d, hashes[1..], rest);
      if |hashes| == 1 {
        assert hashes[1..] == [] && HashLines([]) + rest == rest;
      }
    }
  }

  lemma ReadsPin(d: Draft, pin: Pin)
    requires d.Draft? && IsName(pin.0) && LooseVersion(pin.1)
    ensures ReadLine(d, PinText(pin.0, pin.1) + " \\") == d.(pins := d.pins + [pin])
  {
    var text := PinText(pin.0, pin.1);
    var line := text + " \\";
    PinLineShape(pin);
    NothingToCut(text);
    SplitPinText(pin.0, pin.1);
    assert line[..|line| - 1] == text + " " != text;
    assert LoosePin(line) == Some(pin);
  }

  lemma ReadsOnePin(d: Draft, pins: seq<Pin>, wheels: Pin -> seq<string>)
    requires d.Draft? && LoosePins(pins) && Published(pins, wheels) && pins != []
    ensures ReadLines(d, AllPinLines(pins, wheels)) == ReadLines(d.(pins := d.pins + [pins[0]]), AllPinLines(pins[1..], wheels))
  {
    ReadsPin(d, pins[0]);
    PinLinesSplit(pins, wheels);
    SkipsHashes(d.(pins := d.pins + [pins[0]]), wheels(pins[0]), AllPinLines(pins[1..], wheels));
  }

  lemma {:induction false} ReadsPins(d: Draft, pins: seq<Pin>, wheels: Pin -> seq<string>)
    requires d.Draft? && LoosePins(pins) && Published(pins, wheels)
    ensures ReadLines(d, AllPinLines(pins, wheels)) == d.(pins := d.pins + pins)
    decreases |pins|
  {
    if pins == [] {
      assert d.pins + pins == d.pins;
    } else {
      ReadsOnePin(d, pins, wheels);
      ReadsPins(d.(pins := d.pins + [pins[0]]), pins[1..], wheels);
      assert d.pins + [pins[0]] + pins[1..] == d.pins + pins;
    }
  }

  /** The refresh script reads its own output back: the padded header and the same pins. */
  lemma RefreshReadsPrinted(header: seq<string>, pins: seq<Pin>, wheels: Pin -> seq<string>)
    requires AllBlank(header) && LoosePins(pins) && Published(pins, wheels) && pins != []
    ensures ReadPins(Print(header, pins, wheels)) == Some((Padded(header), pins))
  {
    PaddedIsBlank(header);
    ReadsBlank(Draft([], []), Padded(header), AllPinLines(pins, wheels));
    assert [] + Padded(header) == Padded(header);
    ReadsPins(Draft(Padded(header), []), pins, wheels);
    assert [] + pins == pins;
  }

  lemma LooseIsPin(requirement: string)
    ensures LoosePin(requirement).Some? ==> IsName(LoosePin(requirement).value.0) && LooseVersion(LoosePin(requirement).value.1)
  {
  }

  lemma {:induction false} ReadIsClean(d: Draft, lines: seq<string>)
    requires d.Draft? ==> AllBlank(d.header) && LoosePins(d.pins)
    ensures var r := ReadLines(d, lines); r.Draft? ==> AllBlank(r.header) && LoosePins(r.pins)
    decreases |lines|
  {
    if lines != [] {
      LooseIsPin(RStrip(CutHash(Strip(lines[0]))));
      ReadIsClean(ReadLine(d, lines[0]), lines[1..]);
    }
  }

  /** Refreshing a file twice with the same hashes changes nothing the second time. */
  lemma RefreshTwice(lines: seq<string>, wheels: Pin -> seq<string>)
    requires ReadPins(lines).Some? && Published(ReadPins(lines).value.1, wheels)
    ensures var once := Refresh(lines, wheels); once.Some? && Refresh(once.value, wheels) == once
  {
    ReadIsClean(Draft([], []), lines);
    var (header, pins) := ReadPins(lines).value;
    RefreshReadsPrinted(header, pins, wheels);
    PaddedIsBlank(header);
  }

  /** Comment lines tell none of the three readers anything between two requirements, and lines
      that begin with a hash tell the refresh script nothing. */
  lemma CommentsAreSkipped(raw: string, r: Reading, d: Draft)
    requires Strip(raw) != "" && Strip(raw)[0] == '#'
    ensures r.Reading? && r.open == [] ==> VerifierLine(r, raw) == r && BackupLine(r, raw) == r
    ensures r.Reading? && r.open != [] ==> VerifierLine(r, raw) == Broken && BackupLine(r, raw) == Broken
    ensures d.Draft? ==> ReadLine(d, raw) == if d.pins == [] then d.(header := d.header + [raw]) else d
  {
  }

  lemma HashLinesAreSkipped(raw: string, d: Draft)
    requires HASH <= Strip(raw)
    ensures ReadLine(d, raw) == d
  {
  }
}
