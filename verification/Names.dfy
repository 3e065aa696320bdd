/** Short file names: from a string to the eleven bytes of a directory entry and
    back to a string. */
module Names {
  import opened Bytes

  const SPACE: byte := 0x20

  /** The characters | < > ^ + = ? / [ ] ; , * " \ that FAT does not allow. */
  const ILLEGAL: seq<byte> :=
    [0x7C, 0x3C, 0x3E, 0x5E, 0x2B, 0x3D, 0x3F, 0x2F, 0x5B, 0x5D, 0x3B, 0x2C, 0x2A, 0x22, 0x5C]

  predicate LegalChar(c: byte) {
    0x21 <= c <= 0x7E && c !in ILLEGAL
  }

  function UpperChar(c: byte): byte {
    if c < 0x61 || c > 0x7A then c else c - 0x20
  }

  function Upper(s: seq<byte>): (r: seq<byte>)
    ensures |r| == |s| && forall i | 0 <= i < |s| :: r[i] == UpperChar(s[i])
  {
    seq(|s|, i requires 0 <= i < |s| => UpperChar(s[i]))
  }

  function DotAt(str: seq<byte>): (d: nat)
    ensures d <= |str| && DOT !in str[..d]
    ensures d < |str| ==> str[d] == DOT
  {
    if str == [] || str[0] == DOT then 0 else 1 + DotAt(str[1..])
  }

  function Base(str: seq<byte>): seq<byte> {
    str[..DotAt(str)]
  }

  function Extension(str: seq<byte>): seq<byte> {
    if DotAt(str) < |str| then str[DotAt(str) + 1..] else []
  }

  predicate LegalPart(s: seq<byte>) {
    forall c | c in s :: LegalChar(c) && c != DOT
  }

  /** A name of one to eight legal characters, optionally a dot and up to three
      more. */
  predicate Is83(str: seq<byte>) {
    && 1 <= |Base(str)| <= 8
    && |Extension(str)| <= 3
    && LegalPart(Base(str))
    && LegalPart(Extension(str))
  }

  function Padded(s: seq<byte>, n: nat): (r: seq<byte>)
    requires |s| <= n
    ensures |r| == n
  {
    s + seq(n - |s|, _ => SPACE)
  }

  /** The name field of the entry. */
  function Packed(str: seq<byte>): (r: seq<byte>)
    requires Is83(str)
    ensures |r| == 11
  {
    Padded(Upper(Base(str)), 8) + Padded(Upper(Extension(str)), 3)
  }

  /** The string without a trailing dot, in upper case. */
  function Canonical(str: seq<byte>): seq<byte> {
    Upper(Base(str)) + (if Extension(str) == [] then [] else [DOT] + Upper(Extension(str)))
  }

  function NonSpaces(s: seq<byte>): (r: seq<byte>)
    ensures |r| <= |s|
  {
    if s == [] then [] else NonSpaces(s[..|s| - 1]) + (if s[|s| - 1] == SPACE then [] else [s[|s| - 1]])
  }

  /** What `dirName` prints. */
  function Printed(name: seq<byte>): (r: seq<byte>)
    requires |name| == 11
    ensures |r| <= 12
  {
    NonSpaces(name[..8]) + (if name[8] == SPACE then [] else [DOT]) + NonSpaces(name[8..])
  }

  method IsIllegal(c: byte) returns (found: bool)
    ensures found == (c in ILLEGAL)
  {
    var i := 0;
    while i < |ILLEGAL|
      invariant 0 <= i <= |ILLEGAL| && c !in ILLEGAL[..i]
    {
      if ILLEGAL[i] == c {
        return true;
      }
      i := i + 1;
    }
    return false;
  }

  /** The name field after `q` characters have been placed. */
  function Partial(str: seq<byte>, q: nat): seq<byte>
    requires q <= |str| && PartFits(str, q)
  {
    var d := DotAt(str);
    if q <= d then Padded(Upper(str[..q]), 11)
    else TwoParts(str[..d], str[d + 1..q])
  }

  function TwoParts(base: seq<byte>, ext: seq<byte>): (r: seq<byte>)
    requires |base| <= 8 && |ext| <= 3
    ensures |r| == 11
  {
    Padded(Upper(base), 8) + Padded(Upper(ext), 3)
  }

  lemma ExtensionGrows(base: seq<byte>, ext: seq<byte>, c: byte)
    requires |base| <= 8 && |ext| < 3
    ensures TwoParts(base, ext + [c]) == TwoParts(base, ext)[8 + |ext| := UpperChar(c)]
  {
  }

  /** The first `q` characters can be part of an 8.3 name. */
  predicate PartFits(str: seq<byte>, q: nat)
    requires q <= |str|
  {
    var d := DotAt(str);
    if q <= d then q <= 8 && LegalPart(str[..q])
    else d <= 8 && q - d - 1 <= 3 && LegalPart(str[..d]) && LegalPart(str[d + 1..q])
  }

  lemma NothingPlaced(str: seq<byte>, name: seq<byte>)
    requires |name| == 11 && forall k | 0 <= k < 11 :: name[k] == SPACE
    ensures PartFits(str, 0) && Partial(str, 0) == name
  {
  }

  lemma LegalAppend(s: seq<byte>, c: byte)
    requires LegalPart(s) && LegalChar(c) && c != DOT
    ensures LegalPart(s + [c])
  {
  }

  lemma PartExtends(s: seq<byte>, q: nat)
    requires q < |s| && LegalPart(s[..q]) && LegalChar(s[q]) && s[q] != DOT
    ensures LegalPart(s[..q + 1])
  {
    assert s[..q + 1] == s[..q] + [s[q]];
  }

  lemma PaddedExtends(s: seq<byte>, q: nat, n: nat)
    requires q < |s| && q < n
    ensures Padded(Upper(s[..q + 1]), n) == Padded(Upper(s[..q]), n)[q := UpperChar(s[q])]
  {
  }

  lemma BadPart(s: seq<byte>, q: nat)
    requires q < |s| && (!LegalChar(s[q]) || s[q] == DOT)
    ensures !LegalPart(s)
  {
    assert s[q] in s;
  }

  /** One more character before the dot extends the name field, or cannot. */
  lemma PlaceInBase(str: seq<byte>, q: nat)
    requires q < DotAt(str) && PartFits(str, q)
    ensures str[q] != DOT
    ensures !LegalChar(str[q]) || q > 7 ==> !Is83(str)
    ensures LegalChar(str[q]) && q <= 7 ==>
              PartFits(str, q + 1) && Partial(str, q + 1) == Partial(str, q)[q := UpperChar(str[q])]
  {
    assert Base(str)[q] == str[q];
    if !LegalChar(str[q]) {
      BadPart(Base(str), q);
    } else if q <= 7 {
      assert str[..DotAt(str)][q] == str[q];
      PartExtends(str, q);
      PaddedExtends(str, q, 11);
    }
  }

  lemma PlaceDot(str: seq<byte>)
    requires DotAt(str) < |str| && PartFits(str, DotAt(str))
    ensures PartFits(str, DotAt(str) + 1) && Partial(str, DotAt(str) + 1) == Partial(str, DotAt(str))
  {
    hide LegalChar, LegalPart, Padded, Upper, DotAt, UpperChar;
    var d := DotAt(str);
    EmptyPart();
    assert str[d + 1..d + 1] == [];
    PaddedSplit(Upper(str[..d]));
  }

  lemma EmptyPart()
    ensures LegalPart([]) && Upper([]) == []
  {
  }

  lemma PaddedSplit(s: seq<byte>)
    requires |s| <= 8
    ensures Padded(s, 11) == Padded(s, 8) + Padded([], 3)
  {
  }

  /** A character behind the dot that the name field cannot take. */
  lemma RejectedInExtension(str: seq<byte>, q: nat)
    requires DotAt(str) < q < |str|
    requires str[q] == DOT || !LegalChar(str[q]) || q - DotAt(str) - 1 > 2
    ensures !Is83(str)
  {
    var ext, e := Extension(str), q - DotAt(str) - 1;
    if !LegalChar(str[q]) || str[q] == DOT {
      BadPart(ext, e);
    }
  }

  /** A character behind the dot that extends it. */
  lemma PlaceInExtension(str: seq<byte>, q: nat)
    requires DotAt(str) < q < |str| && PartFits(str, q)
    requires str[q] != DOT && LegalChar(str[q]) && q - DotAt(str) - 1 <= 2
    ensures PartFits(str, q + 1)
    ensures Partial(str, q + 1) == Partial(str, q)[8 + q - DotAt(str) - 1 := UpperChar(str[q])]
  {
    hide LegalChar, LegalPart, TwoParts, DotAt, UpperChar;
    var d := DotAt(str);
    SliceGrows(str, d + 1, q);
    LegalAppend(str[d + 1..q], str[q]);
    ExtensionGrows(str[..d], str[d + 1..q], str[q]);
    assert 8 + |str[d + 1..q]| == 8 + q - d - 1;
  }

  lemma SliceGrows(s: seq<byte>, a: nat, b: nat)
    requires a <= b < |s|
    ensures s[a..b + 1] == s[a..b] + [s[b]]
  {
  }

  lemma PartsWhole(str: seq<byte>)
    ensures DotAt(str) < |str| ==> str[DotAt(str) + 1..|str|] == Extension(str)
    ensures DotAt(str) == |str| ==> str[..|str|] == Base(str) && Extension(str) == []
  {
    hide DotAt;
    if DotAt(str) < |str| {
      SliceToEnd(str, DotAt(str) + 1);
    }
  }

  lemma SliceToEnd(s: seq<byte>, a: nat)
    requires a <= |s|
    ensures s[a..|s|] == s[a..]
  {
  }

  lemma PlacedAll(str: seq<byte>)
    requires PartFits(str, |str|)
    ensures Is83(str) <==> Partial(str, |str|)[0] != SPACE
    ensures Is83(str) ==> Partial(str, |str|) == Packed(str)
  {
    hide LegalChar, UpperChar, DotAt;
    PartsWhole(str);
    if DotAt(str) > 0 {
      FirstCharIsNoSpace(Base(str));
    }
  }

  lemma FirstCharIsNoSpace(s: seq<byte>)
    requires s != [] && LegalPart(s)
    ensures Upper(s)[0] != SPACE
  {
    assert s[0] in s;
  }

  /** `n` is the character `c` as a name field has it: a lower-case letter as its
      upper-case one, anything else as it is. */
  predicate StoredAs(c: byte, n: byte) {
    if 0x61 <= c <= 0x7A then n as int == c as int - 0x20 else n == c
  }

  /** The field holds `part`, one character after the other, and then blanks. */
  predicate FieldHolds(field: seq<byte>, part: seq<byte>) {
    && |part| <= |field|
    && (forall i | 0 <= i < |part| :: StoredAs(part[i], field[i]))
    && (forall i | |part| <= i < |field| :: field[i] == 0x20)
  }

  /** The eleven bytes of the name, without any letter in lower case. */
  lemma PackedFields(str: seq<byte>)
    requires Is83(str)
    ensures FieldHolds(Packed(str)[..8], Base(str)) && FieldHolds(Packed(str)[8..], Extension(str))
    ensures forall i | 0 <= i < 11 :: !(0x61 <= Packed(str)[i] <= 0x7A)
  {
    var name := Packed(str);
    assert name[..8] == Padded(Upper(Base(str)), 8) && name[8..] == Padded(Upper(Extension(str)), 3);
    forall i | 0 <= i < 11
      ensures !(0x61 <= name[i] <= 0x7A)
    {
      assert name[i] == if i < 8 then name[..8][i] else name[8..][i - 8];
    }
  }

  /** Two characters are the same up to the case of letters. */
  predicate SameLetter(c: byte, d: byte) {
    || c == d
    || (0x41 <= c <= 0x5A && d as int == c as int + 0x20)
    || (0x41 <= d <= 0x5A && c as int == d as int + 0x20)
  }

  predicate SameLetters(a: seq<byte>, b: seq<byte>) {
    |a| == |b| && forall i | 0 <= i < |a| :: SameLetter(a[i], b[i])
  }

  /** Names that differ in case only are accepted or not together, and have the
      same name field. */
  lemma CaseIgnored(a: seq<byte>, b: seq<byte>)
    requires SameLetters(a, b)
    ensures Is83(a) == Is83(b)
    ensures Is83(a) ==> Packed(a) == Packed(b)
  {
    SameDot(a, b);
    PartsAlike(Base(a), Base(b));
    PartsAlike(Extension(a), Extension(b));
  }

  lemma {:induction false} SameDot(a: seq<byte>, b: seq<byte>)
    requires SameLetters(a, b)
    ensures DotAt(a) == DotAt(b)
    ensures SameLetters(Base(a), Base(b)) && SameLetters(Extension(a), Extension(b))
  {
    if a != [] && a[0] != DOT {
      SameDot(a[1..], b[1..]);
    }
  }

  lemma PartsAlike(a: seq<byte>, b: seq<byte>)
    requires SameLetters(a, b)
    ensures LegalPart(a) == LegalPart(b) && Upper(a) == Upper(b)
  {
    if LegalPart(a) {
      forall i | 0 <= i < |b|
        ensures LegalChar(b[i]) && b[i] != DOT
      {
        assert a[i] in a;
      }
    }
    if LegalPart(b) {
      forall i | 0 <= i < |a|
        ensures LegalChar(a[i]) && a[i] != DOT
      {
        assert b[i] in b;
      }
    }
  }

  /** Legal are the digits, the letters, the dot and ! # $ % & ' ( ) - : @ _ ` { } ~ */
  lemma LegalAre(c: byte)
    ensures LegalChar(c) <==>
              || 0x30 <= c <= 0x39
              || 0x41 <= c <= 0x5A
              || 0x61 <= c <= 0x7A
              || c == 0x21 || 0x23 <= c <= 0x29 || 0x2D <= c <= 0x2E || c == 0x3A || c == 0x40
              || 0x5F <= c <= 0x60 || c == 0x7B || 0x7D <= c <= 0x7E
  {
  }

  /** Format a name field. Accepts exactly the 8.3 names. */
  method Make83Name(str: seq<byte>, name: array<byte>) returns (ok: bool)
    requires name.Length == 11 && 0 !in str
    modifies name
    ensures ok == Is83(str)
    ensures ok ==> name[..] == Packed(str)
    ensures ok ==> FieldHolds(name[..8], Base(str)) && FieldHolds(name[8..], Extension(str))
    ensures ok ==> forall i | 0 <= i < 11 :: !(0x61 <= name[i] <= 0x7A)
  {
    hide Is83, PartFits, Partial, Packed, FieldHolds;
    var n, i := 7, 0;
    while i < 11
      invariant 0 <= i <= 11 && forall k | 0 <= k < i :: name[k] == SPACE
    {
      name[i] := SPACE;
      i := i + 1;
    }
    i := 0;
    var p := 0;
    ghost var d := DotAt(str);
    NothingPlaced(str, name[..]);
    while p < |str|
      invariant 0 <= p <= |str| && PartFits(str, p)
      invariant n == (if p <= d then 7 else 10) && i == (if p <= d then p else 8 + p - d - 1)
      invariant name[..] == Partial(str, p)
    {
      var c := str[p];
      if p < d {
        PlaceInBase(str, p);
      } else if p == d {
        PlaceDot(str);
      } else if c == DOT || !LegalChar(c) || p - d - 1 > 2 {
        RejectedInExtension(str, p);
      } else {
        PlaceInExtension(str, p);
      }
      p := p + 1;
      if c == DOT {
        if n == 10 {
          return false;
        }
        n := 10;
        i := 8;
      } else {
        var illegal := IsIllegal(c);
        if illegal {
          return false;
        }
        if i > n || c < 0x21 || c > 0x7E {
          return false;
        }
        name[i] := UpperChar(c);
        i := i + 1;
      }
    }
    PlacedAll(str);
    if name[0] != SPACE {
      PackedFields(str);
      assert name[..][..8] == name[..8] && name[..][8..] == name[8..];
    }
    return name[0] != SPACE;
  }

  /** Print a name field as a string, ended by a zero. */
  method DirName(dirName: seq<byte>, name: array<byte>) returns (j: nat)
    requires |dirName| == 11 && name.Length == 13
    modifies name
    ensures j <= 12 && name[..j] == Printed(dirName) && name[j] == 0
  {
    hide PrintedTo, Printed;
    j := 0;
    var i := 0;
    NothingPrinted(dirName);
    while i < 11
      invariant 0 <= i <= 11 && j <= (if i <= 8 then i else i + 1)
      invariant name[..j] == PrintedTo(dirName, i)
    {
      PrintStep(dirName, i);
      if dirName[i] != SPACE {
        if i == 8 {
          name[j] := DOT;
          j := j + 1;
        }
        name[j] := dirName[i];
        j := j + 1;
      }
      i := i + 1;
    }
    PrintedAll(dirName);
    name[j] := 0;
  }

  /** What has been printed of the first `i` characters. */
  function PrintedTo(name: seq<byte>, i: nat): seq<byte>
    requires |name| == 11 && i <= 11
  {
    if i <= 8 then NonSpaces(name[..i])
    else NonSpaces(name[..8]) + (if name[8] == SPACE then [] else [DOT]) + NonSpaces(name[8..i])
  }

  lemma NothingPrinted(name: seq<byte>)
    requires |name| == 11
    ensures PrintedTo(name, 0) == []
  {
  }

  lemma PrintStep(name: seq<byte>, i: nat)
    requires |name| == 11 && i < 11
    ensures PrintedTo(name, i + 1) ==
            PrintedTo(name, i) + (if name[i] == SPACE then [] else if i == 8 then [DOT, name[i]] else [name[i]])
  {
    if i < 8 {
      assert name[..i + 1][..i] == name[..i];
    } else {
      assert name[8..i + 1][..i - 8] == name[8..i];
      assert name[8..8] == [];
    }
  }

  lemma PrintedAll(name: seq<byte>)
    requires |name| == 11
    ensures PrintedTo(name, 11) == Printed(name)
  {
    assert name[8..11] == name[8..];
  }

  // ---- the round trip ----

  lemma {:induction false} NonSpacesOfPadded(s: seq<byte>, n: nat)
    requires |s| <= n && SPACE !in s
    ensures NonSpaces(Padded(s, n)) == s
  {
    if |s| < n {
      NonSpacesOfPadded(s, n - 1);
      assert Padded(s, n)[..n - 1] == Padded(s, n - 1);
    } else if n > 0 {
      var front := s[..n - 1];
      NonSpacesOfPadded(front, n - 1);
      assert Padded(front, n - 1) == front && Padded(s, n) == s && s == front + [s[n - 1]];
    }
  }

  lemma UpperIsLegal(s: seq<byte>)
    requires LegalPart(s)
    ensures LegalPart(Upper(s)) && SPACE !in Upper(s) && Upper(Upper(s)) == Upper(s)
  {
    forall i | 0 <= i < |s|
      ensures LegalChar(Upper(s)[i]) && Upper(s)[i] != DOT && Upper(s)[i] != SPACE
    {
      assert s[i] in s;
    }
  }

  lemma {:induction false} DotAtEnd(a: seq<byte>, b: seq<byte>)
    requires DOT !in a
    ensures DotAt(a) == |a| && DotAt(a + [DOT] + b) == |a|
  {
    if a != [] {
      DotAtEnd(a[1..], b);
      assert (a + [DOT] + b)[1..] == a[1..] + [DOT] + b;
    }
  }

  lemma CanonicalIs(str: seq<byte>)
    ensures var base, ext, r := Base(str), Extension(str), Canonical(str);
            && |base| <= |r|
            && FieldHolds(r[..|base|], base)
            && (ext == [] ==> |r| == |base|)
            && (ext != [] ==> |r| == |base| + 1 + |ext| && r[|base|] == 0x2E && FieldHolds(r[|base| + 1..], ext))
  {
  }

  /** Printing a packed name gives the string in upper case, without a trailing
      dot, in at most twelve characters. */
  lemma PrintedPacked(str: seq<byte>)
    requires Is83(str)
    ensures Printed(Packed(str)) == Canonical(str)
    ensures |Canonical(str)| <= 12
    ensures |Base(str)| <= |Canonical(str)| && FieldHolds(Canonical(str)[..|Base(str)|], Base(str))
    ensures Extension(str) == [] ==> |Canonical(str)| == |Base(str)|
    ensures Extension(str) != [] ==>
              && |Canonical(str)| == |Base(str)| + 1 + |Extension(str)| && Canonical(str)[|Base(str)|] == 0x2E
              && FieldHolds(Canonical(str)[|Base(str)| + 1..], Extension(str))
  {
    hide FieldHolds, LegalChar;
    CanonicalIs(str);
    var base, ext := Upper(Base(str)), Upper(Extension(str));
    UpperIsLegal(Base(str));
    UpperIsLegal(Extension(str));
    NonSpacesOfPadded(base, 8);
    NonSpacesOfPadded(ext, 3);
    assert Packed(str)[..8] == Padded(base, 8) && Packed(str)[8..] == Padded(ext, 3);
    if ext != [] {
      assert ext[0] in ext;
    }
  }

  /** The upper-case name has the upper-case parts. */
  lemma CanonicalParts(str: seq<byte>)
    requires Is83(str)
    ensures Base(Canonical(str)) == Upper(Base(str)) && Extension(Canonical(str)) == Upper(Extension(str))
  {
    hide LegalChar, UpperChar;
    var base, ext, r := Upper(Base(str)), Upper(Extension(str)), Canonical(str);
    UpperIsLegal(Base(str));
    DotAtEnd(base, ext);
    if ext == [] {
      assert r == base;
    } else {
      assert r == base + [DOT] + ext;
    }
  }

  /** The printed name is again an 8.3 name and packs to the same bytes. */
  lemma RoundTrip(str: seq<byte>)
    requires Is83(str)
    ensures Is83(Printed(Packed(str)))
    ensures Packed(Printed(Packed(str))) == Packed(str)
  {
    hide FieldHolds, LegalChar, Printed, UpperChar, Base, Extension, Canonical, LegalPart;
    PrintedPacked(str);
    CanonicalParts(str);
    UpperIsLegal(Base(str));
    UpperIsLegal(Extension(str));
  }
}
