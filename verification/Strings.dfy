/** The string operations of the filters and validators, over ASCII letters. */
module Strings {

  function LowerChar(c: char): char {
    if 'A' <= c <= 'Z' then (c as int + 32) as char else c
  }

  function ToLower(s: string): (r: string)
    ensures |r| == |s| && forall i :: 0 <= i < |s| ==> r[i] == LowerChar(s[i])
  {
    if s == "" then "" else [LowerChar(s[0])] + ToLower(s[1..])
  }

  /** strings.EqualFold. */
  predicate EqualFold(a: string, b: string) {
    ToLower(a) == ToLower(b)
  }

  predicate IsSpace(c: char) {
    c == ' ' || c == '\t' || c == '\n' || c == '\r' || c as int == 11 || c as int == 12
  }

  function TrimLeft(s: string): string {
    if s != "" && IsSpace(s[0]) then TrimLeft(s[1..]) else s
  }

  function TrimRight(s: string): string {
    if s != "" && IsSpace(s[|s| - 1]) then TrimRight(s[..|s| - 1]) else s
  }

  function TrimSpace(s: string): string {
    TrimRight(TrimLeft(s))
  }

  predicate OccursAt(s: string, part: string, i: nat) {
    i + |part| <= |s| && s[i..i + |part|] == part
  }

  /** strings.Contains. */
  predicate Contains(s: string, part: string) {
    exists i :: 0 <= i <= |s| && OccursAt(s, part, i)
  }

  /** strings.Split for a one-character separator: the pieces between separators, at least one. */
  function Split(s: string, sep: char): (parts: seq<string>)
    ensures |parts| >= 1
  {
    if s == "" then [""]
    else
      var rest := Split(s[1..], sep);
      if s[0] == sep then [""] + rest else [[s[0]] + rest[0]] + rest[1..]
  }

  function Join(parts: seq<string>, sep: char): string
    requires parts != []
  {
    if |parts| == 1 then parts[0] else parts[0] + [sep] + Join(parts[1..], sep)
  }

  lemma {:induction false} SplitPrefix(s: string, t: string, sep: char)
    requires sep !in s
    ensures Split(s + [sep] + t, sep) == [s] + Split(t, sep)
  {
    if s == "" {
      assert ([sep] + t)[1..] == t;
    } else {
      SplitPrefix(s[1..], t, sep);
      assert (s + [sep] + t)[1..] == s[1..] + [sep] + t;
      assert [s[0]] + s[1..] == s;
    }
  }

  lemma {:induction false} SplitWhole(s: string, sep: char)
    requires sep !in s
    ensures Split(s, sep) == [s]
  {
    if s != "" {
      SplitWhole(s[1..], sep);
      assert [s[0]] + s[1..] == s;
    }
  }

  /** Splitting undoes joining, when no piece contains the separator. */
  lemma {:induction false} SplitUndoesJoin(parts: seq<string>, sep: char)
    requires parts != [] && forall i :: 0 <= i < |parts| ==> sep !in parts[i]
    ensures Split(Join(parts, sep), sep) == parts
  {
    if |parts| == 1 {
      SplitWhole(parts[0], sep);
    } else {
      SplitUndoesJoin(parts[1..], sep);
      SplitPrefix(parts[0], Join(parts[1..], sep), sep);
    }
  }

  /** A string splits into one piece exactly when it has no separator. */
  lemma {:induction false} SplitCount(s: string, sep: char)
    ensures |Split(s, sep)| >= 2 <==> sep in s
  {
    if s != "" {
      SplitCount(s[1..], sep);
    }
  }

  lemma LowerTwice(s: string)
    ensures ToLower(ToLower(s)) == ToLower(s)
  {
  }

  // ----- what folding, containing, trimming and splitting mean

  /** The strings differ at most in the case of letters. */
  ghost predicate SameButCase(a: string, b: string) {
    && |a| == |b|
    && forall i :: 0 <= i < |a| ==>
         || a[i] == b[i]
         || ('A' <= a[i] <= 'Z' && b[i] as int == a[i] as int + 32)
         || ('A' <= b[i] <= 'Z' && a[i] as int == b[i] as int + 32)
  }

  lemma FoldIff(a: string, b: string)
    ensures EqualFold(a, b) <==> SameButCase(a, b)
  {
    if EqualFold(a, b) {
      forall i | 0 <= i < |a| ensures LowerChar(a[i]) == LowerChar(b[i]) {
        assert ToLower(a)[i] == ToLower(b)[i];
      }
    }
    if SameButCase(a, b) {
      assert forall i :: 0 <= i < |a| ==> LowerChar(a[i]) == LowerChar(b[i]);
      assert ToLower(a) == ToLower(b);
    }
  }

  lemma LowerIsFixed(s: string)
    requires forall i :: 0 <= i < |s| ==> !('A' <= s[i] <= 'Z')
    ensures ToLower(s) == s
  {
  }

  /** This slice of the text is the query, but for case. */
  ghost predicate FoundAt(text: string, query: string, a: int, b: int) {
    0 <= a <= b <= |text| && SameButCase(text[a..b], query)
  }

  lemma OccursIff(text: string, query: string, a: nat)
    ensures OccursAt(ToLower(text), ToLower(query), a) <==> FoundAt(text, query, a, a + |query|)
  {
    hide ToLower, SameButCase;
    if a + |query| <= |text| {
      LowerSlice(text, a, a + |query|);
      FoldIff(text[a..a + |query|], query);
    }
  }

  /** A lower-cased text contains a lower-cased query exactly when some slice of the text is the query, but for case. */
  lemma ContainsIff(text: string, query: string)
    ensures Contains(ToLower(text), ToLower(query)) <==> exists a, b :: FoundAt(text, query, a, b)
  {
    hide ToLower, FoundAt, OccursAt;
    if Contains(ToLower(text), ToLower(query)) {
      var i :| 0 <= i <= |ToLower(text)| && OccursAt(ToLower(text), ToLower(query), i);
      OccursIff(text, query, i);
    }
    forall a, b | FoundAt(text, query, a, b) ensures Contains(ToLower(text), ToLower(query)) {
      FoundLength(text, query, a, b);
      OccursIff(text, query, a);
    }
  }

  lemma FoundLength(text: string, query: string, a: int, b: int)
    requires FoundAt(text, query, a, b)
    ensures b == a + |query| && 0 <= a <= |ToLower(text)|
  {
  }

  lemma LowerSlice(s: string, a: nat, b: nat)
    requires a <= b <= |s|
    ensures ToLower(s)[a..b] == ToLower(s[a..b])
  {
    hide ToLower;
    assert forall i :: 0 <= i < b - a ==> ToLower(s)[a..b][i] == LowerChar(s[a..b][i]);
  }

  /** Both ends of the slice are as far out as they can be without white space. */
  ghost predicate Trimmed(s: string, a: int, b: int) {
    && 0 <= a <= b <= |s|
    && (forall i :: 0 <= i < a || b <= i < |s| ==> s[i] as int in {9, 10, 11, 12, 13, 32})
    && (a < b ==> s[a] as int !in {9, 10, 11, 12, 13, 32} && s[b - 1] as int !in {9, 10, 11, 12, 13, 32})
  }

  ghost predicate Blank(s: string) {
    forall i :: 0 <= i < |s| ==> IsSpace(s[i])
  }

  lemma {:induction false} TrimLeftIs(s: string) returns (a: nat)
    ensures a <= |s| && TrimLeft(s) == s[a..] && Blank(s[..a]) && (a < |s| ==> !IsSpace(s[a]))
  {
    if s != "" && IsSpace(s[0]) {
      var n := TrimLeftIs(s[1..]);
      a := n + 1;
      assert s[1..][n..] == s[a..] && s[..a] == [s[0]] + s[1..][..n];
    } else {
      a := 0;
    }
  }

  lemma {:induction false} TrimRightIs(s: string) returns (b: nat)
    ensures b <= |s| && TrimRight(s) == s[..b] && Blank(s[b..]) && (b > 0 ==> !IsSpace(s[b - 1]))
  {
    if s != "" && IsSpace(s[|s| - 1]) {
      b := TrimRightIs(s[..|s| - 1]);
      assert s[..|s| - 1][..b] == s[..b] && s[b..] == s[..|s| - 1][b..] + [s[|s| - 1]];
    } else {
      b := |s|;
    }
  }

  /** Trimming takes away exactly the white space at both ends. */
  lemma TrimSpaceIs(s: string)
    ensures exists a, b :: Trimmed(s, a, b) && TrimSpace(s) == s[a..b]
  {
    var a := TrimLeftIs(s);
    var t := TrimLeft(s);
    var b := TrimRightIs(t);
    TrimmedHere(s, a, b);
    assert t[..b] == s[a..a + b];
  }

  /** There is one way to trim. */
  lemma TrimmedOnce(s: string, a: int, b: int)
    requires Trimmed(s, a, b)
    ensures TrimSpace(s) == s[a..b]
  {
    TrimSpaceIs(s);
    var c, d :| Trimmed(s, c, d) && TrimSpace(s) == s[c..d];
    if a < b {
      assert c <= a < d && d - 1 >= b - 1;
    }
    if c < d {
      assert a <= c < b;
    }
  }

  lemma TrimmedHere(s: string, a: nat, b: nat)
    requires a <= |s| && Blank(s[..a]) && (a < |s| ==> !IsSpace(s[a]))
    requires b <= |s| - a && Blank(s[a..][b..]) && (b > 0 ==> !IsSpace(s[a..][b - 1]))
    ensures Trimmed(s, a, a + b)
  {
    assert forall i :: 0 <= i < a ==> s[i] == s[..a][i];
    assert forall i :: a + b <= i < |s| ==> s[i] == s[a..][b..][i - a - b];
  }

  /** A piece of s between separators, or between one and an end of s. */
  ghost predicate Piece(s: string, sep: char, a: int, b: int) {
    && 0 <= a <= b <= |s| && (forall i :: a <= i < b ==> s[i] != sep)
    && (a == 0 || s[a - 1] == sep) && (b == |s| || s[b] == sep)
  }

  lemma {:induction false} SplitFirst(s: string, sep: char, b: nat)
    ensures Piece(s, sep, 0, b) ==> Split(s, sep)[0] == s[..b]
    ensures exists e :: Piece(s, sep, 0, e) && Split(s, sep)[0] == s[..e]
  {
    if s == "" || s[0] == sep {
      assert Piece(s, sep, 0, 0);
    } else {
      SplitFirst(s[1..], sep, if b > 0 then b - 1 else 0);
      var e :| Piece(s[1..], sep, 0, e) && Split(s[1..], sep)[0] == s[1..][..e];
      assert s[..e + 1] == [s[0]] + s[1..][..e];
      assert forall i :: 0 < i < |s| ==> s[i] == s[1..][i - 1];
      assert Piece(s, sep, 0, e + 1);
      if Piece(s, sep, 0, b) {
        assert b > 0 && Piece(s[1..], sep, 0, b - 1);
        assert s[..b] == [s[0]] + s[1..][..b - 1];
      }
    }
  }

  lemma PieceShift(s: string, sep: char, a: nat, b: nat)
    requires s != ""
    ensures Piece(s[1..], sep, a, b) && (a > 0 || s[0] == sep) ==> Piece(s, sep, a + 1, b + 1) && s[a + 1..b + 1] == s[1..][a..b]
    ensures Piece(s, sep, a + 1, b + 1) ==> Piece(s[1..], sep, a, b) && (a > 0 || s[0] == sep) && s[a + 1..b + 1] == s[1..][a..b]
  {
    assert forall i :: 0 < i < |s| ==> s[i] == s[1..][i - 1];
    assert forall i :: 0 <= i < |s| - 1 ==> s[1..][i] == s[i + 1];
  }

  /** The pieces after the first are those that begin after a separator. */
  lemma {:induction false} SplitRest(s: string, sep: char, x: string)
    ensures x in Split(s, sep)[1..] <==> exists a, b :: a > 0 && Piece(s, sep, a, b) && x == s[a..b]
  {
    if s != "" {
      var t := s[1..];
      SplitRest(t, sep, x);
      SplitFirst(t, sep, 0);
      var rest := Split(t, sep);
      assert rest == [rest[0]] + rest[1..];
      if s[0] == sep {
        assert Split(s, sep)[1..] == rest;
      } else {
        assert Split(s, sep)[1..] == rest[1..];
      }
      if x in Split(s, sep)[1..] {
        if x in rest[1..] {
          var a, b :| a > 0 && Piece(t, sep, a, b) && x == t[a..b];
          PieceShift(s, sep, a, b);
          assert Piece(s, sep, a + 1, b + 1) && x == s[a + 1..b + 1];
        } else {
          var e :| Piece(t, sep, 0, e) && rest[0] == t[..e];
          PieceShift(s, sep, 0, e);
          assert Piece(s, sep, 1, e + 1) && x == s[1..e + 1];
        }
      }
      forall a, b | a > 0 && Piece(s, sep, a, b) && x == s[a..b] ensures x in Split(s, sep)[1..] {
        PieceShift(s, sep, a - 1, b - 1);
        if a == 1 {
          SplitFirst(t, sep, b - 1);
        }
      }
    }
  }

  /** A string splits into exactly its pieces between separators. */
  lemma SplitIff(s: string, sep: char, x: string)
    ensures x in Split(s, sep) <==> exists a, b :: Piece(s, sep, a, b) && x == s[a..b]
  {
    var parts := Split(s, sep);
    assert parts == [parts[0]] + parts[1..];
    SplitFirst(s, sep, 0);
    SplitRest(s, sep, x);
    if x == parts[0] {
      var e :| Piece(s, sep, 0, e) && parts[0] == s[..e];
      assert x == s[0..e];
    }
    forall a, b | Piece(s, sep, a, b) && x == s[a..b] ensures x in parts {
      if a == 0 {
        SplitFirst(s, sep, b);
      }
    }
  }
}
