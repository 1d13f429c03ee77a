/** The loops of the lock-file scripts, as they run over the lines of a file. */
module LockScripts {
  import opened Basics
  import opened LockText
  import opened LockFile

  /** `_read_pins` of the refresh script. */
  method ReadPinLines(lines: seq<string>) returns (ok: bool, header: seq<string>, pins: seq<Pin>)
    ensures if ok then ReadPins(lines) == Some((header, pins)) else ReadPins(lines) == None
  {
    header, pins := [], [];
    var sawPin := false;
    var i := 0;
    while i < |lines|
      invariant 0 <= i <= |lines| && sawPin == (pins != [])
      invariant ReadLines(Draft(header, pins), lines[i..]) == ReadLines(Draft([], []), lines)
    {
      var line := Strip(lines[i]);
      assert lines[i..][0] == lines[i] && lines[i..][1..] == lines[i + 1..];
      i := i + 1;
      if line == "" || line[0] == '#' {
        if !sawPin {
          header := header + [lines[i - 1]];
        }
      } else if !(HASH <= line) {
        var pin := LoosePin(RStrip(CutHash(line)));
        if pin.None? {
          RejectedStays(lines[i..]);
          return false, [], [];
        }
        sawPin := true;
        pins := pins + [pin.value];
      }
    }
    ok := sawPin;
  }

  lemma {:induction false} RejectedStays(lines: seq<string>)
    ensures ReadLines(Rejected, lines) == Rejected
  {
    if lines != [] {
      RejectedStays(lines[1..]);
    }
  }

  /** The printing part of `refresh`. */
  method PrintPins(header: seq<string>, pins: seq<Pin>, wheels: Pin -> seq<string>) returns (output: seq<string>)
    ensures output == Print(header, pins, wheels)
  {
    output := header;
    if output != [] && Strip(output[|output| - 1]) != "" {
      output := output + [""];
    }
    ghost var start := output;
    ghost var printed: seq<string> := [];
    var i := 0;
    while i < |pins|
      invariant 0 <= i <= |pins| && output == start + printed
      invariant printed == AllPinLines(pins[..i], wheels)
    {
      var hashes := wheels(pins[i]);
      PinLinesGrow(pins, i, wheels);
      output := output + [PinText(pins[i].0, pins[i].1) + " \\"];
      var lines := PrintHashes(hashes);
      output := output + lines;
      printed := printed + PinLines(pins[i], hashes);
      i := i + 1;
    }
    assert pins[..i] == pins;
  }

  lemma {:induction false} PinLinesJoin(a: seq<Pin>, b: seq<Pin>, wheels: Pin -> seq<string>)
    ensures AllPinLines(a + b, wheels) == AllPinLines(a, wheels) + AllPinLines(b, wheels)
    decreases |a|
  {
    if a == [] {
      assert a + b == b;
    } else {
      PinLinesJoin(a[1..], b, wheels);
      assert (a + b)[1..] == a[1..] + b && (a + b)[0] == a[0];
    }
  }

  lemma {:induction false} PinLinesGrow(pins: seq<Pin>, i: nat, wheels: Pin -> seq<string>)
    requires i < |pins|
    ensures AllPinLines(pins[..i + 1], wheels) == AllPinLines(pins[..i], wheels) + PinLines(pins[i], wheels(pins[i]))
  {
    assert pins[..i + 1] == pins[..i] + [pins[i]];
    PinLinesJoin(pins[..i], [pins[i]], wheels);
    assert [pins[i]][1..] == [];
    assert PinLines(pins[i], wheels(pins[i])) + [] == PinLines(pins[i], wheels(pins[i]));
  }

  /** The hash lines of one pin; every line but the last is continued. */
  method PrintHashes(hashes: seq<string>) returns (lines: seq<string>)
    ensures lines == HashLines(hashes)
  {
    lines := [];
    var j := 0;
    while j < |hashes|
      invariant 0 <= j <= |hashes| && |lines| == j
      invariant forall k :: 0 <= k < j ==> lines[k] == HashLine(hashes, k)
    {
      var suffix := if j + 1 < |hashes| then " \\" else "";
      assert INDENT + HASH + hashes[j] + "" == INDENT + HASH + hashes[j];
      lines := lines + [INDENT + HASH + hashes[j] + suffix];
      j := j + 1;
    }
    HashLinesAt(hashes);
  }

  function HashLine(hashes: seq<string>, k: nat): string
    requires k < |hashes|
  {
    if k + 1 < |hashes| then INDENT + HASH + hashes[k] + " \\" else INDENT + HASH + hashes[k]
  }

  lemma {:induction false} HashLinesAt(hashes: seq<string>)
    ensures |HashLines(hashes)| == |hashes| && forall k :: 0 <= k < |hashes| ==> HashLines(hashes)[k] == HashLine(hashes, k)
  {
    if |hashes| > 1 {
      HashLinesAt(hashes[1..]);
      forall k | 0 < k < |hashes| ensures HashLines(hashes)[k] == HashLine(hashes, k) {
        assert HashLines(hashes)[k] == HashLines(hashes[1..])[k - 1] == HashLine(hashes[1..], k - 1);
      }
    }
  }

  /** `_hashed_python_pins` of the verifier. */
  method ReadVerifierPins(lines: seq<string>) returns (pins: Option<Pins>)
    ensures pins == VerifierPins(lines)
  {
    var logical: seq<string> := [];
    var continuation: seq<string> := [];
    var i := 0;
    while i < |lines|
      invariant 0 <= i <= |lines|
      invariant VerifierLines(Reading(logical, continuation), lines[i..]) == VerifierLines(Reading([], []), lines)
    {
      var line := Strip(lines[i]);
      assert lines[i..][0] == lines[i] && lines[i..][1..] == lines[i + 1..];
      i := i + 1;
      if line == "" || line[0] == '#' {
        if continuation != [] {
          BrokenStays(lines[i..]);
          return None;
        }
      } else {
        var continued := line[|line| - 1] == '\\';
        continuation := continuation + [if continued then RStrip(line[..|line| - 1]) else line];
        if !continued {
          logical := logical + [Join(continuation)];
          continuation := [];
        }
      }
    }
    assert lines[i..] == [];
    if continuation != [] {
      return None;
    }
    pins := CollectPins(logical);
    if pins == Some(map[]) {
      pins := None;
    }
  }

  /** `_hashed_lock_pins` of the backup script. */
  method ReadBackupPins(lines: seq<string>) returns (pins: Option<Pins>)
    ensures pins == BackupPins(lines)
  {
    var logical: seq<string> := [];
    var continuation: seq<string> := [];
    var i := 0;
    while i < |lines|
      invariant 0 <= i <= |lines|
      invariant BackupLines(Reading(logical, continuation), lines[i..]) == BackupLines(Reading([], []), lines)
    {
      var line := Strip(lines[i]);
      assert lines[i..][0] == lines[i] && lines[i..][1..] == lines[i + 1..];
      i := i + 1;
      if line == "" || line[0] == '#' {
        if continuation != [] {
          BrokenStays(lines[i..]);
          return None;
        }
      } else {
        var continued := line[|line| - 1] == '\\';
        var text := if continued then RStrip(line[..|line| - 1]) else line;
        if text == "" {
          BrokenStays(lines[i..]);
          return None;
        }
        continuation := continuation + [text];
        if !continued {
          logical := logical + [Join(continuation)];
          continuation := [];
        }
      }
    }
    assert lines[i..] == [];
    if continuation != [] {
      return None;
    }
    pins := CollectPins(logical);
  }

  /** The second loop of both readers: one pin per requirement, hashes checked one by one. */
  method CollectPins(requirements: seq<string>) returns (pins: Option<Pins>)
    ensures pins == Collect(requirements)
  {
    var found: Pins := map[];
    var i := 0;
    while i < |requirements|
      invariant 0 <= i <= |requirements| && Collect(requirements[..i]) == Some(found)
    {
      assert requirements[..i + 1][..i] == requirements[..i];
      var tokens := Split(requirements[i]);
      var pin := if tokens == [] then None else StrictPin(tokens[0]);
      var hashed := CheckHashes(tokens);
      if pin.None? || !hashed || Normal(pin.value.0) in found {
        NoneStays(requirements, i + 1);
        return None;
      }
      found := found[Normal(pin.value.0) := pin.value.1];
      i := i + 1;
    }
    assert requirements[..i] == requirements;
    pins := Some(found);
  }

  lemma {:induction false} NoneStays(requirements: seq<string>, n: nat)
    requires n <= |requirements| && Collect(requirements[..n]) == None
    ensures Collect(requirements) == None
    decreases |requirements| - n
  {
    if n < |requirements| {
      assert requirements[..n + 1][..n] == requirements[..n];
      NoneStays(requirements, n + 1);
    } else {
      assert requirements[..n] == requirements;
    }
  }

  lemma DigestIdentifies(a: string, b: string)
    requires HashDigest(a).Some?
    ensures HashDigest(a) == HashDigest(b) <==> a == b
  {
    if HashDigest(a) == HashDigest(b) {
      assert a == HASH + a[|HASH|..] && b == HASH + b[|HASH|..];
    }
  }

  /** The digests of the first tokens after the pin. */
  function DigestsOf(tokens: seq<string>, n: nat): (digests: set<string>)
    requires n <= |tokens|
    ensures forall i :: 1 <= i < n && HashDigest(tokens[i]).Some? ==> HashDigest(tokens[i]).value in digests
    ensures forall d :: d in digests ==> exists i :: 1 <= i < n && HashDigest(tokens[i]) == Some(d)
  {
    if n <= 1 then {}
    else DigestsOf(tokens, n - 1) + (if HashDigest(tokens[n - 1]).Some? then {HashDigest(tokens[n - 1]).value} else {})
  }

  /** The tokens after the pin and before `n` are distinct hashes. */
  predicate HashPrefix(tokens: seq<string>, n: nat)
    requires n <= |tokens|
  {
    (forall i :: 1 <= i < n ==> HashDigest(tokens[i]).Some?) && (forall i, j :: 1 <= i < j < n ==> tokens[i] != tokens[j])
  }

  /** A digest met before repeats its token. */
  lemma Repeated(tokens: seq<string>, n: nat)
    requires 1 <= n < |tokens| && HashDigest(tokens[n]).Some? && HashDigest(tokens[n]).value in DigestsOf(tokens, n)
    ensures exists j :: 1 <= j < n && tokens[j] == tokens[n]
  {
    var j :| 1 <= j < n && HashDigest(tokens[j]) == Some(HashDigest(tokens[n]).value);
    DigestIdentifies(tokens[j], tokens[n]);
  }

  lemma NotRepeated(tokens: seq<string>, n: nat, j: nat)
    requires 1 <= j < n < |tokens| && tokens[j] == tokens[n] && HashDigest(tokens[n]).Some?
    ensures HashDigest(tokens[n]).value in DigestsOf(tokens, n)
  {
  }

  lemma PrefixSplits(tokens: seq<string>, n: nat)
    requires 1 <= n < |tokens| && HashPrefix(tokens, n)
    ensures HashPrefix(tokens, n + 1) <==> HashDigest(tokens[n]).Some? && forall j :: 1 <= j < n ==> tokens[j] != tokens[n]
  {
  }

  lemma Recorded(tokens: seq<string>, n: nat)
    requires 1 <= n < |tokens| && HashDigest(tokens[n]).Some?
    ensures HashDigest(tokens[n]).value in DigestsOf(tokens, n) <==> exists j :: 1 <= j < n && tokens[j] == tokens[n]
  {
    if HashDigest(tokens[n]).value in DigestsOf(tokens, n) {
      Repeated(tokens, n);
    }
    if j :| 1 <= j < n && tokens[j] == tokens[n] {
      NotRepeated(tokens, n, j);
    }
  }

  lemma {:induction false} PrefixesFail(tokens: seq<string>, n: nat, m: nat)
    requires n <= m <= |tokens| && !HashPrefix(tokens, n)
    ensures !HashPrefix(tokens, m)
  {
  }

  method CheckHashes(tokens: seq<string>) returns (ok: bool)
    ensures ok == HashTokens(tokens)
  {
    if tokens == [] {
      return false;
    }
    var hashes: set<string> := {};
    var i := 1;
    while i < |tokens|
      invariant 1 <= i <= |tokens| && hashes == DigestsOf(tokens, i) && HashPrefix(tokens, i)
    {
      var digest := HashDigest(tokens[i]);
      PrefixSplits(tokens, i);
      if digest.Some? {
        Recorded(tokens, i);
      }
      if digest.None? || digest.value in hashes {
        PrefixesFail(tokens, i + 1, |tokens|);
        return false;
      }
      hashes := hashes + {digest.value};
      i := i + 1;
    }
    ok := hashes != {};
    assert |tokens| >= 2 ==> HashDigest(tokens[1]).value in hashes;
  }
}
