/** The optional value used wherever the generators may find nothing. */
module Wrappers {
  datatype Option<+T> = None | Some(value: T)
}

/**
 * String operations the generators rely on: the ", "-separated join that
 * the record and mapper argument lists use, the "append item and separator"
 * buffer shape they build first, the left-to-right replace of
 * StringBuilder.Replace, and string.Trim. Split and LastWord are the
 * inverses used to read a generated list back.
 */
module Text {

  /** The separator written after every list entry. */
  const Sep: string := ", "

  /** The items separated by ", " (string.Join(", ", items)). */
  function Join(items: seq<string>): string
  {
    if |items| == 0 then ""
    else if |items| == 1 then items[0]
    else items[0] + Sep + Join(items[1..])
  }

  /** Every item followed by ", ": what an "append item, append separator" loop builds. */
  function Terminated(items: seq<string>): string
  {
    if |items| == 0 then "" else items[0] + Sep + Terminated(items[1..])
  }

  lemma {:induction false} TerminatedSnoc(items: seq<string>, x: string)
    ensures Terminated(items + [x]) == Terminated(items) + x + Sep
  {
    if |items| == 0 {
      assert items + [x] == [x];
    } else {
      assert (items + [x])[1..] == items[1..] + [x];
      TerminatedSnoc(items[1..], x);
    }
  }

  /** Dropping the final separator of a non-empty terminated list gives the join. */
  lemma {:induction false} TerminatedIsJoin(items: seq<string>)
    requires |items| > 0
    ensures Terminated(items) == Join(items) + Sep
  {
    if |items| > 1 {
      TerminatedIsJoin(items[1..]);
    }
  }

  /** Splits at every ", "; always at least one piece. */
  function SplitPieces(s: string): (r: seq<string>)
    ensures |r| >= 1
    decreases |s|
  {
    if |s| == 0 then [""]
    else if |s| >= 2 && s[0] == ',' && s[1] == ' ' then [""] + SplitPieces(s[2..])
    else
      var rest := SplitPieces(s[1..]);
      [[s[0]] + rest[0]] + rest[1..]
  }

  /** Splits a ", "-separated list; the empty text is the empty list. */
  function Split(s: string): seq<string>
  {
    if |s| == 0 then [] else SplitPieces(s)
  }

  lemma {:induction false} SplitPiecesItem(x: string, rest: string)
    requires ',' !in x
    ensures SplitPieces(x + Sep + rest) == [x] + SplitPieces(rest)
    decreases |x|
  {
    var s := x + Sep + rest;
    if |x| == 0 {
      assert s[2..] == rest;
    } else {
      assert s[0] == x[0] && x[0] in x;
      assert s[1..] == x[1..] + Sep + rest;
      SplitPiecesItem(x[1..], rest);
      assert [x[0]] + x[1..] == x;
    }
  }

  lemma {:induction false} SplitPiecesLast(x: string)
    requires ',' !in x
    ensures SplitPieces(x) == [x]
    decreases |x|
  {
    if |x| > 0 {
      assert x[0] in x;
      SplitPiecesLast(x[1..]);
      assert [x[0]] + x[1..] == x;
    }
  }

  /** Reading a joined list back gives the items, when none holds a comma or is empty. */
  lemma {:induction false} SplitJoin(items: seq<string>)
    requires forall k :: 0 <= k < |items| ==> |items[k]| > 0 && ',' !in items[k]
    ensures Split(Join(items)) == items
  {
    if |items| == 1 {
      SplitPiecesLast(items[0]);
    } else if |items| > 1 {
      SplitJoin(items[1..]);
      SplitPiecesItem(items[0], Join(items[1..]));
      assert |Join(items[1..])| > 0 by { JoinNonEmpty(items[1..]); }
    }
  }

  lemma {:induction false} JoinNonEmpty(items: seq<string>)
    requires |items| > 0 && forall k :: 0 <= k < |items| ==> |items[k]| > 0
    ensures |Join(items)| > 0
  {
  }

  /** Every further non-empty item adds at least itself and a separator: three characters. */
  lemma {:induction false} JoinLength(items: seq<string>, j: nat)
    requires j < |items| && forall k :: 0 <= k < |items| ==> |items[k]| > 0
    ensures |Join(items)| >= |items[j]| + 3 * (|items| - 1)
    decreases |items|
  {
    if |items| > 1 {
      var rest := items[1..];
      assert |Join(items)| == |items[0]| + |Sep| + |Join(rest)|;
      if j == 0 {
        JoinLength(rest, 0);
      } else {
        JoinLength(rest, j - 1);
        assert rest[j - 1] == items[j];
      }
    }
  }

  /** The text after the last space (all of it when there is none). */
  function LastWord(s: string): (w: string)
    ensures |w| <= |s| && w == s[|s| - |w|..]
    ensures ' ' !in w
    decreases |s|
  {
    if |s| == 0 then ""
    else if s[|s| - 1] == ' ' then ""
    else LastWord(s[..|s| - 1]) + [s[|s| - 1]]
  }

  lemma LastWordSnoc(s: string, c: char)
    requires c != ' '
    ensures LastWord(s + [c]) == LastWord(s) + [c]
  {
    assert (s + [c])[..|s|] == s;
  }

  lemma {:induction false} LastWordAfterSpace(t: string, i: string)
    requires ' ' !in i
    ensures LastWord(t + " " + i) == i
    decreases |i|
  {
    if |i| == 0 {
      var s := t + " " + i;
      assert s[|s| - 1] == ' ';
    } else {
      var init, c := i[..|i| - 1], i[|i| - 1];
      assert c in i;
      assert forall x :: x in init ==> x in i;
      assert init + [c] == i;
      assert t + " " + i == (t + " " + init) + [c];
      LastWordSnoc(t + " " + init, c);
      LastWordAfterSpace(t, init);
    }
  }

  /**
   * StringBuilder.Replace(pat, rep): every occurrence of pat, scanning left to
   * right, is replaced by rep; replaced text is not scanned again.
   */
  function Replace(s: string, pat: string, rep: string): string
    requires |pat| > 0
    decreases |s|
  {
    if |s| < |pat| then s
    else if s[..|pat|] == pat then rep + Replace(s[|pat|..], pat, rep)
    else [s[0]] + Replace(s[1..], pat, rep)
  }

  /** A prefix that holds no character of the pattern's first kind passes through untouched. */
  lemma {:induction false} ReplaceSkipsPrefix(x: string, rest: string, pat: string, rep: string)
    requires |pat| > 0 && pat[0] !in x
    ensures Replace(x + rest, pat, rep) == x + Replace(rest, pat, rep)
    decreases |x|
  {
    var s := x + rest;
    if |x| == 0 {
      assert s == rest;
    } else {
      assert x[0] in x;
      if |s| < |pat| {
        ReplaceShort(rest, pat, rep);
      } else {
        assert s[..|pat|][0] == x[0] != pat[0];
        assert s[1..] == x[1..] + rest;
        calc {
          Replace(s, pat, rep);
          [s[0]] + Replace(s[1..], pat, rep);
          { ReplaceSkipsPrefix(x[1..], rest, pat, rep); }
          [x[0]] + (x[1..] + Replace(rest, pat, rep));
          { assert [x[0]] + x[1..] == x; }
          x + Replace(rest, pat, rep);
        }
      }
    }
  }

  /** `pat` occurs in `x` at position `k`. */
  predicate OccursAt(x: string, k: nat, pat: string)
  {
    k + |pat| <= |x| && x[k..k + |pat|] == pat
  }

  /** No occurrence of `pat` lies inside `x`. */
  predicate Avoids(x: string, pat: string)
  {
    forall k: nat :: k < |x| ==> !OccursAt(x, k, pat)
  }

  lemma AvoidsTail(x: string, pat: string)
    requires |x| > 0 && Avoids(x, pat)
    ensures Avoids(x[1..], pat)
  {
    forall k: nat | k < |x[1..]| ensures !OccursAt(x[1..], k, pat) {
      assert !OccursAt(x, k + 1, pat);
      if k + |pat| <= |x[1..]| {
        assert x[1..][k..k + |pat|] == x[k + 1..k + 1 + |pat|];
      }
    }
  }

  /**
   * A text that holds no occurrence of the pattern, followed by a character
   * that can only begin an occurrence, passes through the replace untouched:
   * no occurrence can start inside it.
   */
  lemma {:induction false} ReplaceAvoidingPrefix(x: string, rest: string, pat: string, rep: string)
    requires |pat| > 0 && Avoids(x, pat)
    requires |rest| > 0 && rest[0] !in pat[1..]
    ensures Replace(x + rest, pat, rep) == x + Replace(rest, pat, rep)
    decreases |x|
  {
    var s := x + rest;
    if |x| == 0 {
      assert s == rest;
    } else if |s| < |pat| {
      ReplaceShort(rest, pat, rep);
    } else {
      if |x| >= |pat| {
        assert !OccursAt(x, 0, pat);
        assert s[..|pat|] == x[0..0 + |pat|];
      } else {
        assert pat[1..][|x| - 1] == pat[|x|];
        assert s[..|pat|][|x|] == rest[0] != pat[|x|];
      }
      assert s[1..] == x[1..] + rest;
      AvoidsTail(x, pat);
      calc {
        Replace(s, pat, rep);
        [s[0]] + Replace(s[1..], pat, rep);
        { ReplaceAvoidingPrefix(x[1..], rest, pat, rep); }
        [x[0]] + (x[1..] + Replace(rest, pat, rep));
        { assert [x[0]] + x[1..] == x; }
        x + Replace(rest, pat, rep);
      }
    }
  }

  /** The text begins with the closing ");". */
  predicate OpensWithClose(x: string)
  {
    |x| >= 2 && x[..2] == ");"
  }

  /** The final ", );" becomes ");". */
  lemma ReplaceFinalSeparator(pat: string, rep: string)
    requires pat == ", );"
    ensures Replace(pat, pat, rep) == rep
  {
    assert pat[..|pat|] == pat;
    assert pat[|pat|..] == "";
  }

  /** A ", " not followed by ");" is kept, and the scan goes on after it. */
  lemma ReplaceKeepsSeparator(t: string, pat: string, rep: string)
    requires pat == ", );"
    requires |t| >= 2 && !OpensWithClose(t)
    ensures Replace(Sep + t, pat, rep) == Sep + Replace(t, pat, rep)
  {
    var u := Sep + t;
    assert t[..2] == [t[0], t[1]];
    assert u[..4] == [u[0], u[1], t[0], t[1]];
    assert pat == [',', ' ', ')', ';'];
    assert u[1..] == " " + t;
    ReplaceSkipsPrefix(" ", t, pat, rep);
    assert [u[0]] + " " == Sep;
  }

  /** The separator's comma appears nowhere in ", );" after its first character. */
  lemma SeparatorStartsOnlyAtFront(pat: string)
    requires pat == ", );"
    ensures Sep[0] !in pat[1..]
  {
    assert pat[1..] == [' ', ')', ';'];
  }

  /**
   * Terminating a list with ", " and closing it with ");", then replacing
   * ", );" by ");", gives the joined list closed by ");" -- provided no item
   * holds ", );" or begins with ");", so the only match is the final one.
   */
  lemma {:induction false} ReplaceClosing(items: seq<string>, pat: string, rep: string)
    requires pat == ", );" && rep == ");"
    requires forall k :: 0 <= k < |items| ==> Avoids(items[k], pat) && !OpensWithClose(items[k])
    ensures Replace(Terminated(items) + rep, pat, rep) == Join(items) + rep
  {
    SeparatorStartsOnlyAtFront(pat);
    if |items| == 0 {
      ReplaceShort(rep, pat, rep);
    } else if |items| == 1 {
      var x := items[0];
      assert Terminated(items) + rep == x + pat;
      ReplaceAvoidingPrefix(x, pat, pat, rep);
      ReplaceFinalSeparator(pat, rep);
    } else {
      var x, rest := items[0], items[1..];
      var t := Terminated(rest) + rep;
      assert forall k :: 0 <= k < |rest| ==> rest[k] == items[k + 1];
      calc {
        Replace(Terminated(items) + rep, pat, rep);
        { assert Terminated(items) + rep == x + (Sep + t); }
        Replace(x + (Sep + t), pat, rep);
        { ReplaceAvoidingPrefix(x, Sep + t, pat, rep); }
        x + Replace(Sep + t, pat, rep);
        { TerminatedOpening(rest, rep); ReplaceKeepsSeparator(t, pat, rep); }
        x + (Sep + Replace(t, pat, rep));
        { ReplaceClosing(rest, pat, rep); }
        x + (Sep + (Join(rest) + rep));
        { assert Join(items) == x + Sep + Join(rest); }
        Join(items) + rep;
      }
    }
  }

  /** A terminated list of items that do not begin with ");" does not begin with ");" either. */
  lemma TerminatedOpening(items: seq<string>, tail: string)
    requires |items| > 0 && !OpensWithClose(items[0])
    ensures |Terminated(items) + tail| >= 2 && !OpensWithClose(Terminated(items) + tail)
  {
    var t := Terminated(items) + tail;
    var x := items[0];
    assert t == x + (Sep + Terminated(items[1..]) + tail);
    if |x| >= 2 {
      assert t[..2] == x[..2];
    } else if |x| == 1 {
      assert t[1] == ',';
    } else {
      assert t[0] == ',';
    }
  }

  lemma ReplaceShort(s: string, pat: string, rep: string)
    requires 0 < |pat| && |s| < |pat|
    ensures Replace(s, pat, rep) == s
  {
  }

  /** The characters string.Trim removes: Unicode White_Space (char.IsWhiteSpace). */
  predicate IsWhiteSpace(c: char)
  {
    ('\t' <= c <= '\r') || c == ' ' || c == '\U{85}' || c == '\U{A0}' || c == '\U{1680}'
    || ('\U{2000}' <= c <= '\U{200A}') || c == '\U{2028}' || c == '\U{2029}'
    || c == '\U{202F}' || c == '\U{205F}' || c == '\U{3000}'
  }

  /** string.TrimStart(): the suffix left after the leading white space. */
  function TrimStart(s: string): (r: string)
    ensures |r| <= |s| && r == s[|s| - |r|..]
    ensures forall k :: 0 <= k < |s| - |r| ==> IsWhiteSpace(s[k])
    ensures |r| == 0 || !IsWhiteSpace(r[0])
    decreases |s|
  {
    if |s| > 0 && IsWhiteSpace(s[0]) then TrimStart(s[1..]) else s
  }

  /** string.TrimEnd(): the prefix left before the trailing white space. */
  function TrimEnd(s: string): (r: string)
    ensures |r| <= |s| && r == s[..|r|]
    ensures forall k :: |r| <= k < |s| ==> IsWhiteSpace(s[k])
    ensures |r| == 0 || !IsWhiteSpace(r[|r| - 1])
    decreases |s|
  {
    if |s| > 0 && IsWhiteSpace(s[|s| - 1]) then TrimEnd(s[..|s| - 1]) else s
  }

  /** string.Trim(): white space removed at both ends. */
  function Trim(s: string): (r: string)
    ensures |r| <= |s|
    ensures |r| == 0 || (!IsWhiteSpace(r[0]) && !IsWhiteSpace(r[|r| - 1]))
  {
    var t := TrimStart(s);
    var r := TrimEnd(t);
    assert |r| > 0 ==> r[0] == t[0];
    r
  }
}

/** Concatenating what a function gives for each element, in order. */
module Sequences {

  function FlatMap<A, B>(xs: seq<A>, f: A -> seq<B>): seq<B>
    decreases |xs|
  {
    if |xs| == 0 then [] else FlatMap(xs[..|xs| - 1], f) + f(xs[|xs| - 1])
  }

  lemma {:induction false} FlatMapAppend<A, B>(a: seq<A>, b: seq<A>, f: A -> seq<B>)
    ensures FlatMap(a + b, f) == FlatMap(a, f) + FlatMap(b, f)
    decreases |b|
  {
    if |b| == 0 {
      assert a + b == a;
    } else {
      var b' := b[..|b| - 1];
      assert (a + b)[..|a + b| - 1] == a + b';
      FlatMapAppend(a, b', f);
    }
  }

  lemma FlatMapSnoc<A, B>(xs: seq<A>, i: nat, f: A -> seq<B>)
    requires i < |xs|
    ensures FlatMap(xs[..i + 1], f) == FlatMap(xs[..i], f) + f(xs[i])
  {
    assert xs[..i + 1][..i] == xs[..i];
  }

  lemma FlatMapSingle<A, B>(x: A, f: A -> seq<B>)
    ensures FlatMap([x], f) == f(x)
  {
    assert [x][..0] == [];
  }

  /** Element k's part sits between the parts of the elements before and after it. */
  lemma FlatMapAt<A, B>(xs: seq<A>, k: nat, f: A -> seq<B>)
    requires k < |xs|
    ensures FlatMap(xs, f) == FlatMap(xs[..k], f) + f(xs[k]) + FlatMap(xs[k + 1..], f)
  {
    assert xs == xs[..k + 1] + xs[k + 1..];
    FlatMapAppend(xs[..k + 1], xs[k + 1..], f);
    FlatMapSnoc(xs, k, f);
  }
}
