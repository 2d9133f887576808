/**
  The string helpers of the kilauea `StringUtil` class. Character classes are
  restricted to ASCII: `Character.toTitleCase`, `toLowerCase` and
  `isUpperCase` act on 'a'..'z' / 'A'..'Z' only, and every other character is
  left as it is.
 */
module StringUtil {
  import opened Lang

  // ---------------------------------------------------------------------
  // Character classes

  predicate IsUpper(c: char) {
    'A' <= c <= 'Z'
  }

  predicate IsLower(c: char) {
    'a' <= c <= 'z'
  }

  function ToLower(c: char): (r: char)
    ensures !IsUpper(r)
    ensures IsUpper(c) ==> IsLower(r)
    ensures !IsUpper(c) ==> r == c
  {
    if IsUpper(c) then (c as int + 32) as char else c
  }

  /** ASCII title case is upper case. */
  function ToTitle(c: char): (r: char)
    ensures !IsLower(r)
    ensures IsLower(c) ==> IsUpper(r)
    ensures !IsLower(c) ==> r == c
  {
    if IsLower(c) then (c as int - 32) as char else c
  }

  lemma LowerTitleRoundTrip(c: char)
    ensures !IsUpper(c) ==> ToLower(ToTitle(c)) == c
    ensures !IsLower(c) ==> ToTitle(ToLower(c)) == c
  {
  }

  /** `Character.isWhitespace` on ASCII: TAB..CR, FS..US and the space. */
  predicate IsWhitespace(c: char) {
    c == ' ' || (9 <= c as int <= 13) || (28 <= c as int <= 31)
  }

  /** The regular-expression class `\s`: space, TAB, LF, VT, FF, CR. */
  predicate IsRegexSpace(c: char) {
    c == ' ' || (9 <= c as int <= 13)
  }

  // ---------------------------------------------------------------------
  // isBlank / isNotBlank

  /** `String.isBlank`: scans for a character that is not whitespace. */
  function AllWhitespace(s: string): (b: bool)
    ensures b <==> forall i :: 0 <= i < |s| ==> IsWhitespace(s[i])
  {
    if |s| == 0 then true
    else if !IsWhitespace(s[0]) then (assert !IsWhitespace(s[0]); false)
    else (
      var rest := AllWhitespace(s[1..]);
      assert forall i :: 1 <= i < |s| ==> s[i] == s[1..][i - 1];
      rest
    )
  }

  /** `null` and whitespace-only strings are blank. */
  function IsBlank(s: Option<string>): (b: bool)
    ensures b <==> (s.None? || forall i :: 0 <= i < |s.value| ==> IsWhitespace(s.value[i]))
  {
    s.None? || AllWhitespace(s.value)
  }

  /** A string is not blank exactly when it is non-null and holds a visible character. */
  function IsNotBlank(s: Option<string>): (b: bool)
    ensures b <==> (s.Some? && exists i :: 0 <= i < |s.value| && !IsWhitespace(s.value[i]))
    ensures b <==> !IsBlank(s)
  {
    !IsBlank(s)
  }

  /** Blankness of a string that is known to be non-null. */
  predicate Blank(s: string) {
    IsBlank(Some(s))
  }

  // ---------------------------------------------------------------------
  // capitalise / uncapitalise

  /** Title-cases the first character; the empty string comes back unchanged. */
  function Capitalise(s: string): (r: string)
    ensures |r| == |s|
    ensures |s| > 0 ==> r[0] == ToTitle(s[0]) && r[1..] == s[1..]
    ensures |s| == 0 ==> r == s
  {
    if |s| == 0 then s
    else if ToTitle(s[0]) == s[0] then s
    else [ToTitle(s[0])] + s[1..]
  }

  /** Lower-cases the first character; the empty string comes back unchanged. */
  function Uncapitalise(s: string): (r: string)
    ensures |r| == |s|
    ensures |s| > 0 ==> r[0] == ToLower(s[0]) && r[1..] == s[1..]
    ensures |s| == 0 ==> r == s
  {
    if |s| == 0 then s
    else if ToLower(s[0]) == s[0] then s
    else [ToLower(s[0])] + s[1..]
  }

  /** `capitalise(null)` and `uncapitalise(null)` return `null`. */
  function CapitaliseNullable(s: Option<string>): (r: Option<string>)
    ensures r.None? <==> s.None?
    ensures s.Some? ==> |r.value| == |s.value|
  {
    match s
    case None => None
    case Some(v) => Some(Capitalise(v))
  }

  function UncapitaliseNullable(s: Option<string>): (r: Option<string>)
    ensures r.None? <==> s.None?
    ensures s.Some? ==> |r.value| == |s.value|
  {
    match s
    case None => None
    case Some(v) => Some(Uncapitalise(v))
  }

  lemma UncapitaliseIdempotent(s: string)
    ensures Uncapitalise(Uncapitalise(s)) == Uncapitalise(s)
  {
  }

  lemma CapitaliseIdempotent(s: string)
    ensures Capitalise(Capitalise(s)) == Capitalise(s)
  {
  }

  /** A name that does not start with an upper-case letter survives capitalise then uncapitalise. */
  lemma UncapitaliseCapitalise(s: string)
    requires |s| > 0 ==> !IsUpper(s[0])
    ensures Uncapitalise(Capitalise(s)) == s
  {
    if |s| > 0 {
      LowerTitleRoundTrip(s[0]);
      var r := Uncapitalise(Capitalise(s));
      assert r == [r[0]] + r[1..];
      assert s == [s[0]] + s[1..];
    }
  }

  // ---------------------------------------------------------------------
  // capitaliseAll

  predicate HasRegexSpace(s: string) {
    exists i :: 0 <= i < |s| && IsRegexSpace(s[i])
  }

  /** The pieces between every `\s` character (one more than there are separators). */
  function SplitAll(s: string): (r: seq<string>)
    ensures |r| >= 1
    ensures !HasRegexSpace(s) ==> r == [s]
  {
    if |s| == 0 then [""]
    else
      var rest := SplitAll(s[1..]);
      assert !HasRegexSpace(s) ==> !HasRegexSpace(s[1..]) by {
        if !HasRegexSpace(s) {
          forall i | 0 <= i < |s[1..]| ensures !IsRegexSpace(s[1..][i]) {
            assert s[1..][i] == s[i + 1];
          }
        }
      }
      if IsRegexSpace(s[0]) then [""] + rest
      else (
        assert !HasRegexSpace(s) ==> [s[0]] + s[1..] == s;
        [[s[0]] + rest[0]] + rest[1..]
      )
  }

  function DropTrailingEmpty(xs: seq<string>): (r: seq<string>)
    ensures |r| <= |xs| && r == xs[..|r|]
    ensures |r| > 0 ==> r[|r| - 1] != ""
  {
    if |xs| > 0 && xs[|xs| - 1] == "" then DropTrailingEmpty(xs[..|xs| - 1]) else xs
  }

  /** `String.split("\\s")`: no match gives the input itself, else trailing empty pieces are removed. */
  function JavaSplit(s: string): (r: seq<string>)
    ensures !HasRegexSpace(s) ==> r == [s]
  {
    if !HasRegexSpace(s) then [s] else DropTrailingEmpty(SplitAll(s))
  }

  /** The buffer loop of capitaliseAll: a space follows each piece while the buffer is shorter than the input. */
  function AppendPieces(pieces: seq<string>, inputLength: nat, buffer: string): (r: string)
    ensures |r| >= |buffer| && r[..|buffer|] == buffer
  {
    if |pieces| == 0 then buffer
    else
      var b := buffer + Capitalise(pieces[0]);
      var b' := if |b| != inputLength then b + " " else b;
      var r := AppendPieces(pieces[1..], inputLength, b');
      assert r[..|buffer|] == r[..|b'|][..|buffer|];
      r
  }

  /** Capitalises every whitespace-separated word. */
  function CapitaliseAll(s: string): string {
    AppendPieces(JavaSplit(s), |s|, "")
  }

  /** Without whitespace, capitaliseAll is capitalise. */
  lemma CapitaliseAllSingleWord(s: string)
    requires !HasRegexSpace(s)
    ensures CapitaliseAll(s) == Capitalise(s)
  {
    assert JavaSplit(s) == [s];
    assert "" + Capitalise(s) == Capitalise(s);
    assert [s][1..] == [];
    assert AppendPieces([s], |s|, "") == AppendPieces([], |s|, Capitalise(s));
  }

  /** Two words joined by one space are capitalised word by word, the space kept. */
  lemma {:induction false} CapitaliseAllTwoWords(w1: string, w2: string)
    requires |w1| > 0 && |w2| > 0
    requires !HasRegexSpace(w1) && !HasRegexSpace(w2)
    ensures CapitaliseAll(w1 + " " + w2) == Capitalise(w1) + " " + Capitalise(w2)
  {
    var s := w1 + " " + w2;
    assert IsRegexSpace(s[|w1|]);
    SplitAroundSpace(w1, w2);
    assert SplitAll(s) == [w1, w2];
    assert JavaSplit(s) == [w1, w2];
    var b1 := Capitalise(w1) + " ";
    assert "" + Capitalise(w1) == Capitalise(w1);
    assert [w1, w2][1..] == [w2];
    assert [w2][1..] == [];
    assert AppendPieces([w1, w2], |s|, "") == AppendPieces([w2], |s|, b1);
    assert AppendPieces([w2], |s|, b1) == AppendPieces([], |s|, b1 + Capitalise(w2));
  }

  lemma {:induction false} SplitAroundSpace(w1: string, w2: string)
    requires !HasRegexSpace(w1) && !HasRegexSpace(w2)
    ensures SplitAll(w1 + " " + w2) == [w1, w2]
    decreases |w1|
  {
    var s := w1 + " " + w2;
    if |w1| == 0 {
      assert s[1..] == w2;
    } else {
      assert s[1..] == w1[1..] + " " + w2;
      assert !HasRegexSpace(w1[1..]) by {
        forall i | 0 <= i < |w1[1..]| ensures !IsRegexSpace(w1[1..][i]) {
          assert w1[1..][i] == w1[i + 1];
        }
      }
      SplitAroundSpace(w1[1..], w2);
      assert !IsRegexSpace(s[0]) by { assert s[0] == w1[0]; }
      assert [w1[0]] + w1[1..] == w1;
    }
  }

  /** Words joined by single spaces. */
  function JoinSpaces(ws: seq<string>): string
    requires |ws| > 0
    decreases |ws|
  {
    if |ws| == 1 then ws[0] else ws[0] + " " + JoinSpaces(ws[1..])
  }

  /** Each word capitalised. */
  function CapitaliseEach(ws: seq<string>): (r: seq<string>)
    ensures |r| == |ws| && forall i :: 0 <= i < |ws| ==> r[i] == Capitalise(ws[i])
  {
    seq(|ws|, i requires 0 <= i < |ws| => Capitalise(ws[i]))
  }

  /** A word without whitespace followed by a space is the first piece of the split. */
  lemma {:induction false} SplitAfterWord(w: string, rest: string)
    requires !HasRegexSpace(w)
    ensures SplitAll(w + " " + rest) == [w] + SplitAll(rest)
    decreases |w|
  {
    var s := w + " " + rest;
    if |w| == 0 {
      assert s[1..] == rest;
    } else {
      assert s[1..] == w[1..] + " " + rest;
      assert !HasRegexSpace(w[1..]) by {
        forall i | 0 <= i < |w[1..]| ensures !IsRegexSpace(w[1..][i]) {
          assert w[1..][i] == w[i + 1];
        }
      }
      SplitAfterWord(w[1..], rest);
      assert !IsRegexSpace(s[0]) by { assert s[0] == w[0]; }
      assert [w[0]] + w[1..] == w;
    }
  }

  /** Splitting words joined by single spaces gives the words back. */
  lemma {:induction false} SplitJoin(ws: seq<string>)
    requires |ws| > 0
    requires forall i :: 0 <= i < |ws| ==> !HasRegexSpace(ws[i])
    ensures SplitAll(JoinSpaces(ws)) == ws
    decreases |ws|
  {
    if |ws| > 1 {
      SplitAfterWord(ws[0], JoinSpaces(ws[1..]));
      assert forall i :: 0 <= i < |ws[1..]| ==> ws[1..][i] == ws[i + 1];
      SplitJoin(ws[1..]);
      assert [ws[0]] + ws[1..] == ws;
    }
  }

  /** The buffer loop over words joined by single spaces puts one space between consecutive capitalised words. */
  lemma {:induction false} AppendJoined(ws: seq<string>, inputLength: nat, buffer: string)
    requires |ws| > 0 && inputLength == |buffer| + |JoinSpaces(ws)|
    ensures AppendPieces(ws, inputLength, buffer) == buffer + JoinSpaces(CapitaliseEach(ws))
    decreases |ws|
  {
    if |ws| == 1 {
      assert ws[1..] == [];
      assert CapitaliseEach(ws) == [Capitalise(ws[0])];
    } else {
      var next := buffer + Capitalise(ws[0]) + " ";
      AppendJoined(ws[1..], inputLength, next);
      AppendJoinedStep(ws, inputLength, buffer);
    }
  }

  /** One word of the loop: its capitalised form and a space go into the buffer, and the rest follows. */
  lemma AppendJoinedStep(ws: seq<string>, inputLength: nat, buffer: string)
    requires |ws| > 1 && inputLength == |buffer| + |JoinSpaces(ws)|
    requires var next := buffer + Capitalise(ws[0]) + " ";
             AppendPieces(ws[1..], inputLength, next) == next + JoinSpaces(CapitaliseEach(ws[1..]))
    ensures AppendPieces(ws, inputLength, buffer) == buffer + JoinSpaces(CapitaliseEach(ws))
  {
    AppendPiecesHead(ws, inputLength, buffer);
    JoinCapitalisedHead(ws);
    var c := Capitalise(ws[0]);
    var rest := JoinSpaces(CapitaliseEach(ws[1..]));
    ConcatRegroup(buffer, c, rest);
  }

  lemma ConcatRegroup(a: string, b: string, c: string)
    ensures a + b + " " + c == a + (b + " " + c)
  {
  }

  /** Before the last word the buffer is shorter than the input, so a space follows the capitalised word. */
  lemma AppendPiecesHead(ws: seq<string>, inputLength: nat, buffer: string)
    requires |ws| > 1 && inputLength == |buffer| + |JoinSpaces(ws)|
    ensures AppendPieces(ws, inputLength, buffer) == AppendPieces(ws[1..], inputLength, buffer + Capitalise(ws[0]) + " ")
  {
    assert |buffer + Capitalise(ws[0])| != inputLength;
  }

  lemma JoinCapitalisedHead(ws: seq<string>)
    requires |ws| > 1
    ensures JoinSpaces(CapitaliseEach(ws)) == Capitalise(ws[0]) + " " + JoinSpaces(CapitaliseEach(ws[1..]))
  {
    assert CapitaliseEach(ws)[1..] == CapitaliseEach(ws[1..]);
  }

  /**
    Words without whitespace joined by single spaces are capitalised word by
    word, the spaces kept; a last empty word is excluded because `split`
    drops trailing empty pieces.
   */
  lemma CapitaliseAllWords(ws: seq<string>)
    requires |ws| > 0
    requires forall i :: 0 <= i < |ws| ==> !HasRegexSpace(ws[i])
    requires |ws| == 1 || ws[|ws| - 1] != ""
    ensures CapitaliseAll(JoinSpaces(ws)) == JoinSpaces(CapitaliseEach(ws))
  {
    var s := JoinSpaces(ws);
    SplitJoin(ws);
    if |ws| == 1 {
      assert JavaSplit(s) == ws;
    } else {
      assert s[|ws[0]|] == ' ';
      assert HasRegexSpace(s);
      assert DropTrailingEmpty(ws) == ws;
      assert JavaSplit(s) == ws;
    }
    AppendJoined(ws, |s|, "");
    assert "" + JoinSpaces(CapitaliseEach(ws)) == JoinSpaces(CapitaliseEach(ws));
  }

  // ---------------------------------------------------------------------
  // clearSlashes / unifiySlashes

  predicate OccursAt(s: string, pattern: string, i: int) {
    0 <= i && i + |pattern| <= |s| && s[i..i + |pattern|] == pattern
  }

  predicate Contains(s: string, pattern: string) {
    exists i :: 0 <= i <= |s| && OccursAt(s, pattern, i)
  }

  /** An occurrence past the first character is an occurrence in the rest of the string. */
  lemma OccursShift(s: string, pattern: string, j: int)
    requires 1 <= j && |s| > 0
    ensures OccursAt(s, pattern, j) <==> OccursAt(s[1..], pattern, j - 1)
  {
    if j + |pattern| <= |s| {
      assert s[1..][j - 1..j - 1 + |pattern|] == s[j..j + |pattern|];
    }
  }

  /** `String.indexOf`: the first occurrence. */
  function IndexOf(s: string, pattern: string): (r: nat)
    requires Contains(s, pattern)
    ensures OccursAt(s, pattern, r)
    ensures forall j :: 0 <= j < r ==> !OccursAt(s, pattern, j)
    decreases |s|
  {
    if OccursAt(s, pattern, 0) then 0
    else
      assert Contains(s[1..], pattern) by {
        var i :| 0 <= i <= |s| && OccursAt(s, pattern, i);
        OccursShift(s, pattern, i);
      }
      var k := IndexOf(s[1..], pattern);
      OccursShift(s, pattern, k + 1);
      assert forall j :: 1 <= j <= k ==> !OccursAt(s, pattern, j) by {
        forall j | 1 <= j <= k ensures !OccursAt(s, pattern, j) {
          OccursShift(s, pattern, j);
        }
      }
      k + 1
  }

  predicate HasDoubleSlash(s: string) {
    exists i :: 0 <= i < |s| - 1 && s[i] == '/' && s[i + 1] == '/'
  }

  lemma DoubleSlashIsContains(s: string)
    ensures HasDoubleSlash(s) <==> Contains(s, "//")
  {
    if HasDoubleSlash(s) {
      var i :| 0 <= i < |s| - 1 && s[i] == '/' && s[i + 1] == '/';
      assert OccursAt(s, "//", i);
    }
    if Contains(s, "//") {
      var i :| 0 <= i <= |s| && OccursAt(s, "//", i);
      assert s[i] == s[i..i + 2][0] && s[i + 1] == s[i..i + 2][1];
    }
  }

  /** Reference meaning of unifying slashes: every run of '/' shrinks to a single '/'. */
  function Collapse(s: string): string {
    if |s| <= 1 then s
    else if s[0] == '/' && s[1] == '/' then Collapse(s[1..])
    else [s[0]] + Collapse(s[1..])
  }

  lemma CollapseCons(c: char, x: string)
    ensures Collapse([c] + x) ==
            if |x| > 0 && c == '/' && x[0] == '/' then Collapse(x) else [c] + Collapse(x)
  {
    assert ([c] + x)[1..] == x;
  }

  lemma {:induction false} CollapseStartsWithSlash(s: string)
    ensures |Collapse(s)| > 0 <==> |s| > 0
    ensures |s| > 0 ==> (Collapse(s)[0] == '/' <==> s[0] == '/')
    decreases |s|
  {
    if |s| > 1 {
      CollapseStartsWithSlash(s[1..]);
    }
  }

  lemma {:induction false} CollapseHasNoDoubleSlash(s: string)
    ensures !HasDoubleSlash(Collapse(s))
    decreases |s|
  {
    if |s| > 1 {
      CollapseHasNoDoubleSlash(s[1..]);
      CollapseStartsWithSlash(s[1..]);
      if !(s[0] == '/' && s[1] == '/') {
        var c := Collapse(s[1..]);
        var r := [s[0]] + c;
        forall i | 0 <= i < |r| - 1 ensures !(r[i] == '/' && r[i + 1] == '/') {
          if i > 0 {
            assert r[i] == c[i - 1] && r[i + 1] == c[i];
          }
        }
      }
    }
  }

  lemma {:induction false} CollapseFixpoint(s: string)
    requires !HasDoubleSlash(s)
    ensures Collapse(s) == s
    decreases |s|
  {
    if |s| > 1 {
      assert !HasDoubleSlash(s[1..]) by {
        forall i | 0 <= i < |s[1..]| - 1 ensures !(s[1..][i] == '/' && s[1..][i + 1] == '/') {
          assert s[1..][i] == s[i + 1] && s[1..][i + 1] == s[i + 2];
        }
      }
      CollapseFixpoint(s[1..]);
      assert !(s[0] == '/' && s[1] == '/');
      assert [s[0]] + s[1..] == s;
    }
  }

  /** `String.replace("//", "/")`: left-to-right, non-overlapping. */
  function ReplaceDoubleSlash(s: string): (r: string)
    ensures |r| <= |s|
    ensures HasDoubleSlash(s) ==> |r| < |s|
    ensures |r| > 0 <==> |s| > 0
    ensures |s| > 0 ==> (r[0] == '/' <==> s[0] == '/')
    decreases |s|
  {
    if |s| >= 2 && s[0] == '/' && s[1] == '/' then "/" + ReplaceDoubleSlash(s[2..])
    else if |s| == 0 then ""
    else
      var r := [s[0]] + ReplaceDoubleSlash(s[1..]);
      assert HasDoubleSlash(s) ==> HasDoubleSlash(s[1..]) by {
        if HasDoubleSlash(s) {
          var i :| 0 <= i < |s| - 1 && s[i] == '/' && s[i + 1] == '/';
          assert i > 0;
          assert s[1..][i - 1] == s[i] && s[1..][i] == s[i + 1];
        }
      }
      r
  }

  lemma {:induction false} ReplaceKeepsCollapse(s: string)
    ensures Collapse(ReplaceDoubleSlash(s)) == Collapse(s)
    decreases |s|
  {
    if |s| >= 2 && s[0] == '/' && s[1] == '/' {
      var t := s[2..];
      ReplaceKeepsCollapse(t);
      CollapseCons('/', ReplaceDoubleSlash(t));
      CollapseCons('/', t);
      assert s[1..] == "/" + t;
    } else if |s| > 0 {
      var t := s[1..];
      ReplaceKeepsCollapse(t);
      CollapseCons(s[0], ReplaceDoubleSlash(t));
      CollapseCons(s[0], t);
      assert s == [s[0]] + t;
    }
  }

  /** The `while (contains("//")) replace("//", "/")` loop; it ends because each pass shortens the string. */
  function UnifySlashes(s: string): (r: string)
    ensures !HasDoubleSlash(r)
    ensures r == Collapse(s)
    decreases |s|
  {
    if HasDoubleSlash(s) then
      var r := UnifySlashes(ReplaceDoubleSlash(s));
      ReplaceKeepsCollapse(s);
      r
    else
      CollapseFixpoint(s);
      s
  }

  lemma NoDoubleSlashNoSeparator(s: string)
    requires !HasDoubleSlash(s)
    ensures !Contains(s, "://")
  {
    forall i | 0 <= i <= |s| ensures !OccursAt(s, "://", i) {
      if i + 3 <= |s| {
        assert s[i..i + 3][1] == s[i + 1] && s[i..i + 3][2] == s[i + 2];
        assert !(s[i + 1] == '/' && s[i + 1 + 1] == '/');
      }
    }
  }

  /** Unifies slashes in the segments around each "://" and keeps the separators. */
  function ClearSlashes(s: string): (r: string)
    ensures !Contains(s, "://") ==> r == Collapse(s) && !HasDoubleSlash(r)
    decreases |s|
  {
    if Contains(s, "://") then
      var p := IndexOf(s, "://");
      UnifySlashes(s[..p]) + "://" + ClearSlashes(s[p + 3..])
    else
      UnifySlashes(s)
  }

  /** In `a + "://" + b` with `a` free of double slashes, the first separator is the one after `a`. */
  lemma FirstSeparator(a: string, b: string)
    requires !HasDoubleSlash(a)
    ensures Contains(a + "://" + b, "://")
    ensures IndexOf(a + "://" + b, "://") == |a|
    ensures (a + "://" + b)[..|a|] == a && (a + "://" + b)[|a| + 3..] == b
  {
    var r := a + "://" + b;
    NoDoubleSlashNoSeparator(a);
    assert OccursAt(r, "://", |a|) by {
      assert r[|a|..|a| + 3] == "://";
    }
    forall j | 0 <= j < |a| ensures !OccursAt(r, "://", j) {
      if j + 3 <= |a| {
        assert r[j..j + 3] == a[j..j + 3];
        assert !OccursAt(a, "://", j);
      } else {
        assert r[j..j + 3][|a| - j] == r[|a|] == ':';
      }
    }
    assert r[..|a|] == a;
    assert r[|a| + 3..] == b;
  }

  /** A cleared string is left alone by a second pass. */
  lemma {:induction false} ClearSlashesIdempotent(s: string)
    ensures ClearSlashes(ClearSlashes(s)) == ClearSlashes(s)
    decreases |s|
  {
    var r := ClearSlashes(s);
    if Contains(s, "://") {
      var p := IndexOf(s, "://");
      var a := UnifySlashes(s[..p]);
      var b := ClearSlashes(s[p + 3..]);
      assert r == a + "://" + b;
      FirstSeparator(a, b);
      CollapseFixpoint(a);
      ClearSlashesIdempotent(s[p + 3..]);
    } else {
      NoDoubleSlashNoSeparator(r);
      CollapseFixpoint(r);
    }
  }

  // ---------------------------------------------------------------------
  // quote

  /** Surrounds the text with the quote character. */
  function Quote(s: string, q: char): (r: string)
    ensures |r| == |s| + 2
    ensures r[0] == q && r[|r| - 1] == q
    ensures r[1..|r| - 1] == s
  {
    [q] + s + [q]
  }

  /** The one-argument form quotes with '"'. */
  function QuoteDefault(s: string): (r: string)
    ensures |r| == |s| + 2
    ensures r[0] == '"' && r[|r| - 1] == '"'
    ensures r[1..|r| - 1] == s
  {
    Quote(s, '"')
  }

  // ---------------------------------------------------------------------
  // camelToSnake

  function CountUpper(s: string): nat {
    if |s| == 0 then 0 else (if IsUpper(s[0]) then 1 else 0) + CountUpper(s[1..])
  }

  /** Every upper-case character becomes '_' followed by its lower-case form. */
  function SnakeTail(s: string): (r: string)
    ensures |r| == |s| + CountUpper(s)
    ensures forall i :: 0 <= i < |r| ==> !IsUpper(r[i])
  {
    if |s| == 0 then ""
    else
      var head := if IsUpper(s[0]) then ['_', ToLower(s[0])] else [s[0]];
      var tail := SnakeTail(s[1..]);
      assert forall i :: |head| <= i < |head + tail| ==> (head + tail)[i] == tail[i - |head|];
      head + tail
  }

  /** camelToSnake: the first character is lower-cased; later upper-case characters get a '_' in front. */
  function CamelToSnake(s: Identifier): (r: Identifier)
    ensures r[0] == ToLower(s[0])
    ensures |r| == |s| + CountUpper(s[1..])
    ensures forall i :: 0 <= i < |r| ==> !IsUpper(r[i])
  {
    [ToLower(s[0])] + SnakeTail(s[1..])
  }

  /** Independent inverse: "_x" becomes "X". */
  function SnakeToCamel(s: string): string {
    if |s| >= 2 && s[0] == '_' then [ToTitle(s[1])] + SnakeToCamel(s[2..])
    else if |s| == 0 then ""
    else [s[0]] + SnakeToCamel(s[1..])
  }

  predicate NoUnderscore(s: string) {
    forall i :: 0 <= i < |s| ==> s[i] != '_'
  }

  lemma {:induction false} SnakeTailRoundTrip(s: string)
    requires NoUnderscore(s)
    ensures SnakeToCamel(SnakeTail(s)) == s
    decreases |s|
  {
    if |s| > 0 {
      var t := SnakeTail(s[1..]);
      assert NoUnderscore(s[1..]) by {
        forall i | 0 <= i < |s[1..]| ensures s[1..][i] != '_' {
          assert s[1..][i] == s[i + 1];
        }
      }
      SnakeTailRoundTrip(s[1..]);
      if IsUpper(s[0]) {
        assert SnakeTail(s) == ['_', ToLower(s[0])] + t;
        assert (['_', ToLower(s[0])] + t)[2..] == t;
        LowerTitleRoundTrip(s[0]);
        assert ToTitle(ToLower(s[0])) == s[0];
      } else {
        assert SnakeTail(s) == [s[0]] + t;
        assert s[0] != '_';
        if |t| > 0 {
          assert ([s[0]] + t)[1..] == t;
        }
      }
      assert s == [s[0]] + s[1..];
    }
  }

  /** A camel-case name that starts lower-case and holds no '_' is recovered from its snake-case form. */
  lemma CamelToSnakeRoundTrip(s: Identifier)
    requires !IsUpper(s[0])
    requires NoUnderscore(s)
    ensures SnakeToCamel(CamelToSnake(s)) == s
  {
    assert NoUnderscore(s[1..]) by {
      forall i | 0 <= i < |s[1..]| ensures s[1..][i] != '_' {
        assert s[1..][i] == s[i + 1];
      }
    }
    SnakeTailRoundTrip(s[1..]);
    var t := SnakeTail(s[1..]);
    assert CamelToSnake(s) == [s[0]] + t;
    assert s[0] != '_';
    if |t| > 0 {
      assert ([s[0]] + t)[1..] == t;
    }
    assert s == [s[0]] + s[1..];
  }
}
