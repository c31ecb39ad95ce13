/**
 Guessing a deployment from a pod name <deployment>-<rs-hash>-<pod-hash>: on bytes
 (backend/internal/analyzer/patch_generator.go) and on runes
 (backend/internal/analyzer/score_engine.go).
 */
module PodNames {
  import opened Counting
  import opened Utf8

  const DASH: Byte := 0x2D

  /** Position of the last occurrence of c. */
  function LastIndex<T(==)>(s: seq<T>, c: T): (i: Option<nat>)
    ensures i.None? ==> c !in s
    ensures i.Some? ==> i.value < |s| && s[i.value] == c && c !in s[i.value + 1..]
  {
    if s == [] then None
    else if s[|s| - 1] == c then Some(|s| - 1)
    else
      var i := LastIndex(s[..|s| - 1], c);
      assert s == s[..|s| - 1] + [s[|s| - 1]];
      assert i.Some? ==> s[i.value + 1..] == s[..|s| - 1][i.value + 1..] + [s[|s| - 1]];
      i
  }

  /** What precedes the second last separator, if there are two. */
  function Cut<T(==)>(s: seq<T>, c: T): Option<seq<T>> {
    match LastIndex(s, c)
    case None => None
    case Some(j) =>
      match LastIndex(s[..j], c)
      case None => None
      case Some(i) => Some(s[..i])
  }

  function Trim<T(==)>(s: seq<T>, c: T): seq<T> {
    match Cut(s, c)
    case None => s
    case Some(d) => d
  }

  /** From position i on, c occurs at j only. */
  ghost predicate SoleDash<T>(s: seq<T>, c: T, i: nat, j: nat) {
    i <= j < |s| && s[j] == c && c !in s[i..j] && c !in s[j + 1..]
  }

  lemma {:induction false} LastIndexIs<T>(a: seq<T>, c: T, b: seq<T>)
    requires c !in b
    ensures LastIndex(a + [c] + b, c) == Some(|a|)
  {
    var s := a + [c] + b;
    if b != [] {
      assert s[..|s| - 1] == a + [c] + b[..|b| - 1];
      LastIndexIs(a, c, b[..|b| - 1]);
    }
  }

  lemma LastIndexAt<T>(s: seq<T>, c: T, i: nat, j: nat)
    requires SoleDash(s, c, i, j)
    ensures LastIndex(s, c) == Some(j)
  {
    LastIndexIs(s[..j], c, s[j + 1..]);
    assert s == s[..j] + [c] + s[j + 1..];
  }

  lemma CutAtSecond<T>(s: seq<T>, c: T, i: nat, j: nat)
    requires SoleDash(s, c, i + 1, j) && s[i] == c
    ensures Cut(s, c) == Some(s[..i])
  {
    LastIndexAt(s, c, i + 1, j);
    LastIndexIs(s[..i], c, s[i + 1..j]);
    assert s[..j] == s[..i] + [c] + s[i + 1..j];
    assert s[..j][..i] == s[..i];
  }

  lemma CutAtNone<T>(s: seq<T>, c: T, j: nat)
    requires SoleDash(s, c, 0, j)
    ensures Cut(s, c) == None
  {
    LastIndexAt(s, c, 0, j);
    assert s[0..j] == s[..j];
  }

  /** The byte version: its loop runs backwards and returns at the second dash. */
  method GuessDeployment(podName: seq<Byte>) returns (deployment: seq<Byte>)
    ensures deployment == Trim(podName, DASH)
  {
    var count := 0;
    ghost var j := 0;
    var i := |podName|;
    while i > 0
      invariant 0 <= i <= |podName|
      invariant count == 0 || count == 1
      invariant count == 0 ==> DASH !in podName[i..]
      invariant count == 1 ==> i <= j && SoleDash(podName, DASH, i, j)
    {
      i := i - 1;
      if podName[i] == DASH {
        count := count + 1;
        if count == 2 {
          CutAtSecond(podName, DASH, i, j);
          return podName[..i];
        }
        j := i;
      }
    }
    if count == 1 {
      CutAtNone(podName, DASH, j);
    }
    return podName;
  }

  /** What the rune version returns: the kept runes, re-encoded. */
  function LocalSpec(podName: seq<Byte>): seq<Byte> {
    match Cut(Decode(podName), DASH)
    case None => podName
    case Some(d) => Encode(d)
  }

  method GuessDeploymentLocal(podName: seq<Byte>) returns (deployment: seq<Byte>)
    ensures deployment == LocalSpec(podName)
  {
    var parts := Decode(podName);
    var count := 0;
    ghost var j := 0;
    var i := |parts|;
    while i > 0
      invariant 0 <= i <= |parts|
      invariant count == 0 || count == 1
      invariant count == 0 ==> DASH !in parts[i..]
      invariant count == 1 ==> i <= j && SoleDash(parts, DASH, i, j)
    {
      i := i - 1;
      if parts[i] == DASH {
        count := count + 1;
        if count == 2 {
          CutAtSecond(parts, DASH, i, j);
          return Encode(parts[..i]);
        }
        j := i;
      }
    }
    if count == 1 {
      CutAtNone(parts, DASH, j);
    }
    return podName;
  }

  // ----- what the guess means

  /** The last two segments are removed, whatever dashes the deployment itself contains. */
  lemma CutRemovesTwoSegments<T>(d: seq<T>, r: seq<T>, p: seq<T>, c: T)
    requires c !in r && c !in p
    ensures Cut(d + [c] + r + [c] + p, c) == Some(d)
  {
    var s := d + [c] + r + [c] + p;
    LastIndexIs(d + [c] + r, c, p);
    LastIndexIs(d, c, r);
    assert s[..|d + [c] + r|] == d + [c] + r;
    assert s[..|d|] == d;
  }

  /** Every name with two dashes is cut, and the three parts make up the name. */
  lemma CutParts<T>(s: seq<T>, c: T) returns (r: seq<T>, p: seq<T>)
    requires Cut(s, c).Some?
    ensures s == Cut(s, c).value + [c] + r + [c] + p && c !in r && c !in p
  {
    var j := LastIndex(s, c).value;
    var i := LastIndex(s[..j], c).value;
    r, p := s[i + 1..j], s[j + 1..];
    assert s[..j][i + 1..] == r;
  }

  lemma DecodeThreeParts(d: seq<Byte>, r: seq<Byte>, p: seq<Byte>)
    ensures Decode(d + [DASH] + r + [DASH] + p)
         == Decode(d) + [DASH] + Decode(r) + [DASH] + Decode(p)
  {
    DecodeSplits(d + [DASH] + r, DASH, p);
    DecodeSplits(d, DASH, r);
  }

  lemma NotCutDecoded(s: seq<Byte>)
    requires Cut(s, DASH).None?
    ensures Cut(Decode(s), DASH).None?
  {
    if LastIndex(s, DASH).None? {
      AsciiSurvives(s, DASH);
    } else {
      var j := LastIndex(s, DASH).value;
      var a, b := s[..j], s[j + 1..];
      assert s == a + [DASH] + b;
      DecodeSplits(a, DASH, b);
      AsciiSurvives(a, DASH);
      AsciiSurvives(b, DASH);
      LastIndexIs(Decode(a), DASH, Decode(b));
      assert Decode(s)[..|Decode(a)|] == Decode(a);
    }
  }

  /** Both versions find two dashes in the same names, and at the same places. */
  lemma CutDecoded(s: seq<Byte>)
    ensures Cut(Decode(s), DASH)
         == match Cut(s, DASH) case None => None case Some(d) => Some(Decode(d))
  {
    if Cut(s, DASH).Some? {
      var r, p := CutParts(s, DASH);
      DecodeThreeParts(Cut(s, DASH).value, r, p);
      AsciiSurvives(r, DASH);
      AsciiSurvives(p, DASH);
      CutRemovesTwoSegments(Decode(Cut(s, DASH).value), Decode(r), Decode(p), DASH);
    } else {
      NotCutDecoded(s);
    }
  }

  /**
   The two guesses agree exactly on the names that have fewer than two dashes or whose part before
   the second last dash is valid UTF-8.
   */
  lemma GuessesAgreeIff(s: seq<Byte>)
    ensures Trim(s, DASH) == LocalSpec(s) <==> (Cut(s, DASH).None? || Valid(Cut(s, DASH).value))
  {
    CutDecoded(s);
    if Cut(s, DASH).Some? {
      EncodeDecodeIff(Cut(s, DASH).value);
    }
  }

  lemma EncodeThreeParts(d: seq<Rune>, r: seq<Rune>, p: seq<Rune>)
    ensures Encode(d + [DASH] + r + [DASH] + p)
         == Encode(d) + [DASH] + Encode(r) + [DASH] + Encode(p)
  {
    assert Encode([DASH]) == [DASH];
    EncodeAppend(d, [DASH]);
    EncodeAppend(d + [DASH], r);
    EncodeAppend(d + [DASH] + r, [DASH]);
    EncodeAppend(d + [DASH] + r + [DASH], p);
  }

  /** In particular they agree on every valid UTF-8 name. */
  lemma GuessesAgreeOnValid(s: seq<Byte>)
    requires Valid(s)
    ensures Trim(s, DASH) == LocalSpec(s)
  {
    GuessesAgreeIff(s);
    if Cut(s, DASH).Some? {
      var d := Cut(s, DASH).value;
      var r, p := CutParts(s, DASH);
      DecodeThreeParts(d, r, p);
      EncodeThreeParts(Decode(d), Decode(r), Decode(p));
      EncodeDecodeIff(s);
      EncodeHasNoNewDash(r);
      EncodeHasNoNewDash(p);
      CutRemovesTwoSegments(Encode(Decode(d)), Encode(Decode(r)), Encode(Decode(p)), DASH);
      EncodeDecodeIff(d);
    }
  }

  lemma EncodeHasNoNewDash(bs: seq<Byte>)
    requires DASH !in bs
    ensures DASH !in Encode(Decode(bs))
  {
    AsciiSurvives(bs, DASH);
    AsciiSurvives(Encode(Decode(bs)), DASH);
    DecodeEncode(Decode(bs));
  }

  /** They can differ on other names: one stray byte before the second last dash is enough. */
  lemma GuessesCanDiffer()
    ensures Trim([0xFF, DASH, DASH], DASH) == [0xFF]
    ensures LocalSpec([0xFF, DASH, DASH]) == [0xEF, 0xBF, 0xBD]
  {
    var s: seq<Byte> := [0xFF, DASH, DASH];
    assert s == [0xFF] + [DASH] + [] + [DASH] + [];
    CutRemovesTwoSegments([0xFF], [], [], DASH);
    CutDecoded(s);
    assert Decode([0xFF]) == [REPLACEMENT];
    assert Encode([REPLACEMENT]) == EncodeRune(REPLACEMENT);
  }
}
