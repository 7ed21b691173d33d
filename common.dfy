/** Shared vocabulary of the helpdesk model: optional values, results, and the
    JavaScript string and array operations the console relies on
    (String.prototype.trim, toLowerCase, includes, split, join, substring,
    Array.prototype.filter and map, and de-duplication through a Set),
    written once as Dafny functions with the properties the other modules use. */
module Common {

  datatype Option<+T> = None | Some(value: T)

  /** The outcome of an operation that the source may abandon by throwing or by
      an early `return`: `Err` carries the message. */
  datatype Result<+T> = Ok(value: T) | Err(message: string)

  // ---------------------------------------------------------------------------
  // White space and String.prototype.trim
  // ---------------------------------------------------------------------------

  /** White space as `trim` and the regular-expression class `\s` see it: the
      WhiteSpace and LineTerminator code points of ECMAScript. */
  predicate IsSpace(c: char)
  {
    c == '\t' || c == '\n' || c == '\U{000B}' || c == '\U{000C}' || c == '\r' || c == ' '
    || c == '\U{00A0}' || c == '\U{1680}' || ('\U{2000}' <= c <= '\U{200A}')
    || c == '\U{2028}' || c == '\U{2029}' || c == '\U{202F}' || c == '\U{205F}'
    || c == '\U{3000}' || c == '\U{FEFF}'
  }

  predicate AllSpace(s: string)
  {
    forall i :: 0 <= i < |s| ==> IsSpace(s[i])
  }

  /** A string that `trim` leaves as it is. */
  predicate Trimmed(s: string)
  {
    s == [] || (!IsSpace(s[0]) && !IsSpace(s[|s| - 1]))
  }

  /** The number of white-space characters at the front of `s`. */
  function LeadingSpace(s: string): (n: nat)
    ensures n <= |s| && AllSpace(s[..n])
    ensures n < |s| ==> !IsSpace(s[n])
    ensures AllSpace(s) ==> n == |s|
  {
    if s == [] || !IsSpace(s[0]) then 0
    else
      var m := LeadingSpace(s[1..]);
      assert s[..1 + m] == [s[0]] + s[1..][..m];
      assert AllSpace(s) ==> AllSpace(s[1..]) by {
        assert forall k :: 0 <= k < |s[1..]| ==> s[1..][k] == s[k + 1];
      }
      1 + m
  }

  /** The number of white-space characters at the end of `s`. */
  function TrailingSpace(s: string): (n: nat)
    ensures n <= |s| && AllSpace(s[|s| - n..])
    ensures n < |s| ==> !IsSpace(s[|s| - 1 - n])
    ensures n < |s| || AllSpace(s)
  {
    if s == [] || !IsSpace(s[|s| - 1]) then 0
    else
      var p := s[..|s| - 1];
      var m := TrailingSpace(p);
      assert s[|s| - (1 + m)..] == p[|p| - m..] + [s[|s| - 1]];
      assert m == |p| ==> s == p + [s[|s| - 1]];
      AllSpaceConcat(p[|p| - m..], [s[|s| - 1]]);
      AllSpaceConcat(p, [s[|s| - 1]]);
      1 + m
  }

  lemma AllSpaceConcat(a: string, b: string)
    ensures AllSpace(a + b) <==> AllSpace(a) && AllSpace(b)
  {
    if AllSpace(a) && AllSpace(b) {
      forall i | 0 <= i < |a + b| ensures IsSpace((a + b)[i]) {
        if i >= |a| { assert (a + b)[i] == b[i - |a|]; }
      }
    }
    if AllSpace(a + b) {
      assert forall i :: 0 <= i < |a| ==> (a + b)[i] == a[i];
      assert forall i :: 0 <= i < |b| ==> (a + b)[|a| + i] == b[i];
    }
  }

  /** String.prototype.trimStart. */
  function TrimStart(s: string): (r: string)
    ensures r == s[LeadingSpace(s)..]
  {
    s[LeadingSpace(s)..]
  }

  /** String.prototype.trim: the segment of `s` left after removing white space
      at both ends. */
  function Trim(s: string): (r: string)
    ensures Trimmed(r)
    ensures r == [] <==> AllSpace(s)
    ensures var i := LeadingSpace(s); i + |r| <= |s| && r == s[i..i + |r|] && AllSpace(s[i + |r|..])
  {
    var t := TrimStart(s);
    TrimFacts(s);
    t[..|t| - TrailingSpace(t)]
  }

  /** What `Trim` promises, for the segment it returns: it lies in `s` right
      after the leading white space and only white space follows it. */
  lemma TrimFacts(s: string)
    ensures var i := LeadingSpace(s); var t := s[i..]; var r := t[..|t| - TrailingSpace(t)];
      && i + |r| <= |s| && r == s[i..i + |r|] && AllSpace(s[i + |r|..])
      && Trimmed(r) && (r == [] <==> AllSpace(s))
  {
    var i := LeadingSpace(s);
    var t := s[i..];
    var j := TrailingSpace(t);
    var r := t[..|t| - j];
    assert r == s[i..i + |r|];
    assert t[|t| - j..] == s[i + |r|..];
    TrimEnds(s, i, t, j);
  }

  lemma TrimEnds(s: string, i: nat, t: string, j: nat)
    requires i <= |s| && AllSpace(s[..i]) && (i < |s| ==> !IsSpace(s[i])) && (AllSpace(s) ==> i == |s|)
    requires t == s[i..]
    requires j <= |t| && (j < |t| ==> !IsSpace(t[|t| - 1 - j])) && (j < |t| || AllSpace(t))
    ensures Trimmed(t[..|t| - j]) && (t[..|t| - j] == [] <==> AllSpace(s))
  {
    var r := t[..|t| - j];
    if r != [] {
      assert r[0] == s[i] && r[|r| - 1] == t[|t| - 1 - j];
    } else {
      assert s == s[..i] + t;
      AllSpaceConcat(s[..i], t);
    }
  }

  lemma TrimmedIsFixed(s: string)
    requires Trimmed(s)
    ensures Trim(s) == s
  {
    if s != [] {
      assert LeadingSpace(s) == 0;
      assert TrailingSpace(s) == 0;
    }
  }

  lemma {:induction false} TrimStartSkipsLeadingSpace(w: string, s: string)
    requires AllSpace(w)
    ensures TrimStart(w + s) == TrimStart(s)
  {
    if w != [] {
      assert (w + s)[0] == w[0];
      assert (w + s)[1..] == w[1..] + s;
      assert LeadingSpace(w + s) == 1 + LeadingSpace(w[1..] + s);
      assert TrimStart(w + s) == (w[1..] + s)[LeadingSpace(w[1..] + s)..];
      TrimStartSkipsLeadingSpace(w[1..], s);
    } else {
      assert w + s == s;
    }
  }

  /** White space in front of a string does not survive `trim`. */
  lemma TrimSkipsLeadingSpace(w: string, s: string)
    requires AllSpace(w)
    ensures Trim(w + s) == Trim(s)
  {
    TrimStartSkipsLeadingSpace(w, s);
  }

  // ---------------------------------------------------------------------------
  // String.prototype.toLowerCase
  // ---------------------------------------------------------------------------

  /** Lower-casing of ASCII and of the Latin-1 capitals (U+00C0..U+00DE except
      the multiplication sign), which covers the accented Spanish letters. */
  function LowerChar(c: char): (d: char)
  {
    if 'A' <= c <= 'Z' || ('\U{00C0}' <= c <= '\U{00DE}' && c != '\U{00D7}')
    then (c as int + 32) as char
    else c
  }

  function Lower(s: string): (r: string)
    ensures |r| == |s|
    ensures forall i :: 0 <= i < |s| ==> r[i] == LowerChar(s[i])
  {
    seq(|s|, i requires 0 <= i < |s| => LowerChar(s[i]))
  }

  lemma LowerCharIdempotent(c: char)
    ensures LowerChar(LowerChar(c)) == LowerChar(c)
  {
  }

  /** Lower-casing twice is lower-casing once. */
  lemma LowerIdempotent(s: string)
    ensures Lower(Lower(s)) == Lower(s)
  {
    forall i | 0 <= i < |s| ensures Lower(Lower(s))[i] == Lower(s)[i] {
      LowerCharIdempotent(s[i]);
    }
  }

  lemma LowerAppend(a: string, b: string)
    ensures Lower(a + b) == Lower(a) + Lower(b)
  {
  }

  // ---------------------------------------------------------------------------
  // String.prototype.includes, substring, split and Array.prototype.join
  // ---------------------------------------------------------------------------

  /** `s.includes(sub)`: `sub` occurs in `s` at some position. */
  predicate Contains(s: string, sub: string)
  {
    exists i :: 0 <= i <= |s| - |sub| && OccursAt(s, sub, i)
  }

  /** `sub` stands in `s` starting at index `i`. */
  predicate OccursAt(s: string, sub: string, i: int)
  {
    0 <= i && i + |sub| <= |s| && s[i..i + |sub|] == sub
  }

  lemma ContainsEmpty(s: string)
    ensures Contains(s, "")
  {
    assert OccursAt(s, "", 0);
  }

  /** An occurrence inside a part is an occurrence inside the whole. */
  lemma ContainsInPart(a: string, b: string, c: string, sub: string)
    requires Contains(b, sub)
    ensures Contains(a + b + c, sub)
  {
    var i :| 0 <= i <= |b| - |sub| && OccursAt(b, sub, i);
    assert (a + b + c)[|a| + i..|a| + i + |sub|] == sub;
    assert OccursAt(a + b + c, sub, |a| + i);
  }

  predicate ContainsAny(s: string, subs: seq<string>)
  {
    exists k :: 0 <= k < |subs| && Contains(s, subs[k])
  }

  /** `s.substring(0, n)` for a non-negative `n`. */
  function Take<T>(s: seq<T>, n: nat): (r: seq<T>)
    ensures |r| <= n && |r| <= |s|
    ensures |s| <= n ==> r == s
    ensures |s| > n ==> |r| == n
    ensures r <= s
  {
    if |s| <= n then s else s[..n]
  }

  /** The first index of `d` in `s`. */
  function IndexOf(s: string, d: char): (i: nat)
    requires d in s
    ensures i < |s| && s[i] == d && d !in s[..i]
  {
    if s[0] == d then 0
    else
      assert d in s[1..];
      var j := IndexOf(s[1..], d);
      assert s[..1 + j] == [s[0]] + s[1..][..j];
      1 + j
  }

  /** `s.split(d)` for a one-character separator: the pieces between the
      separators, at least one piece, none holding the separator. */
  function Split(s: string, d: char): (r: seq<string>)
    ensures |r| >= 1
    ensures forall k :: 0 <= k < |r| ==> d !in r[k]
    decreases |s|
  {
    if d !in s then [s]
    else
      var i := IndexOf(s, d);
      [s[..i]] + Split(s[i + 1..], d)
  }

  /** `ps.join(sep)`. */
  function Join(ps: seq<string>, sep: string): string
  {
    if |ps| == 0 then ""
    else if |ps| == 1 then ps[0]
    else ps[0] + sep + Join(ps[1..], sep)
  }

  /** Splitting undoes joining when the separator is the split character and no
      piece contains it. */
  lemma {:induction false} SplitJoin(ps: seq<string>, d: char)
    requires |ps| >= 1
    requires forall k :: 0 <= k < |ps| ==> d !in ps[k]
    ensures Split(Join(ps, [d]), d) == ps
  {
    if |ps| > 1 {
      SplitAtFirst(ps[0], d, Join(ps[1..], [d]));
      SplitJoin(ps[1..], d);
    }
  }

  /** Text before the first separator is the first piece. */
  lemma SplitAtFirst(a: string, d: char, b: string)
    requires d !in a
    ensures Split(a + [d] + b, d) == [a] + Split(b, d)
  {
    var s := a + [d] + b;
    assert s[|a|] == d;
    var i := IndexOf(s, d);
    assert i == |a| by {
      assert forall m :: 0 <= m < |a| ==> s[m] == a[m];
      assert forall m :: 0 <= m < i ==> s[..i][m] == s[m];
    }
    assert s[..i] == a;
    assert s[i + 1..] == b;
  }

  /** `s.split(',').map(k => k.trim()).filter(k => k)`: the comma-separated
      entries of a form field, each trimmed, blank ones dropped. */
  function ParseCommaList(s: string): (r: seq<string>)
    ensures forall k :: 0 <= k < |r| ==> r[k] != [] && Trimmed(r[k]) && ',' !in r[k]
  {
    var pieces := Split(s, ',');
    var trimmed := MapSeq(pieces, Trim);
    forall k | 0 <= k < |trimmed| ensures ',' !in trimmed[k] {
      assert trimmed[k] == Trim(pieces[k]);
      TrimIsSegment(pieces[k]);
    }
    Filter(trimmed, NonEmpty)
  }

  /** The `filter(k => k)` test: an empty string is falsy. */
  predicate NonEmpty(k: string)
  {
    k != []
  }

  /** The pieces of `p + ks.join(", ")` cut at the commas: the first entry
      behind `p`, every later one behind the blank the separator leaves. */
  lemma {:induction false} SplitCommaJoin(p: string, ks: seq<string>)
    requires |ks| >= 1 && ',' !in p
    requires forall k :: 0 <= k < |ks| ==> ',' !in ks[k]
    ensures var r := Split(p + Join(ks, ", "), ',');
      |r| == |ks| && r[0] == p + ks[0] && forall i :: 1 <= i < |ks| ==> r[i] == " " + ks[i]
    decreases |ks|
  {
    NoCommaConcat(p, ks[0]);
    if |ks| == 1 {
      assert p + Join(ks, ", ") == p + ks[0];
    } else {
      var rest := Join(ks[1..], ", ");
      var r' := Split(" " + rest, ',');
      assert |r'| == |ks| - 1 && r'[0] == " " + ks[1] && forall i :: 1 <= i < |ks| - 1 ==> r'[i] == " " + ks[1..][i] by {
        SplitCommaJoin(" ", ks[1..]);
      }
      assert Split(p + Join(ks, ", "), ',') == [p + ks[0]] + r' by {
        JoinCommaStep(p, ks);
        SplitAtFirst(p + ks[0], ',', " " + rest);
      }
      ConsPieces(p + ks[0], r', ks);
    }
  }

  lemma ConsPieces(x: string, r': seq<string>, ks: seq<string>)
    requires |ks| >= 2 && |r'| == |ks| - 1 && r'[0] == " " + ks[1]
    requires forall i :: 1 <= i < |ks| - 1 ==> r'[i] == " " + ks[1..][i]
    ensures var r := [x] + r'; |r| == |ks| && r[0] == x && forall i :: 1 <= i < |ks| ==> r[i] == " " + ks[i]
  {
    var r := [x] + r';
    forall i | 1 <= i < |ks| ensures r[i] == " " + ks[i] {
      assert r[i] == r'[i - 1];
      if i > 1 {
        assert ks[i] == ks[1..][i - 1];
      }
    }
  }

  lemma NoCommaConcat(a: string, b: string)
    requires ',' !in a && ',' !in b
    ensures ',' !in a + b
  {
  }

  lemma JoinCommaStep(p: string, ks: seq<string>)
    requires |ks| >= 2
    ensures p + Join(ks, ", ") == (p + ks[0]) + [','] + (" " + Join(ks[1..], ", "))
  {
    var rest := Join(ks[1..], ", ");
    assert Join(ks, ", ") == ks[0] + ", " + rest;
    assert ", " == [','] + " ";
    SeqAssoc3([','], " ", rest);
    SeqAssoc3(p, ks[0], ", " + rest);
    SeqAssoc3(p + ks[0], [','], " " + rest);
    SeqAssoc3(ks[0], ", ", rest);
  }

  lemma SeqAssoc3<T>(a: seq<T>, b: seq<T>, c: seq<T>)
    ensures a + (b + c) == (a + b) + c
  {
  }

  /** Joining a list with ", " and parsing it back as a comma list gives the
      list again when no entry is empty, holds a comma or has white space at
      its ends -- which is what the parse itself produces. */
  lemma JoinThenParse(ks: seq<string>)
    requires forall k :: 0 <= k < |ks| ==> ks[k] != [] && Trimmed(ks[k]) && ',' !in ks[k]
    ensures ParseCommaList(Join(ks, ", ")) == ks
  {
    if ks == [] {
      ParseEmpty();
    } else {
      TrimmedPieces(ks);
      ParseOfTrimmedPieces(Join(ks, ", "), ks);
    }
  }

  lemma ParseEmpty()
    ensures ParseCommaList("") == []
  {
    assert Split("", ',') == [""];
    assert MapSeq(Split("", ','), Trim) == [""];
  }

  lemma ParseOfTrimmedPieces(s: string, ks: seq<string>)
    requires MapSeq(Split(s, ','), Trim) == ks
    requires forall k :: 0 <= k < |ks| ==> ks[k] != []
    ensures ParseCommaList(s) == ks
  {
    FilterKeepsAll(ks, NonEmpty);
  }

  lemma TrimmedPieces(ks: seq<string>)
    requires |ks| >= 1
    requires forall k :: 0 <= k < |ks| ==> ks[k] != [] && Trimmed(ks[k]) && ',' !in ks[k]
    ensures MapSeq(Split(Join(ks, ", "), ','), Trim) == ks
  {
    assert "" + Join(ks, ", ") == Join(ks, ", ");
    SplitCommaJoin("", ks);
    TrimAll(Split(Join(ks, ", "), ','), ks);
  }

  lemma TrimAll(pieces: seq<string>, ks: seq<string>)
    requires |pieces| == |ks|
    requires forall i :: 0 <= i < |ks| ==> Trimmed(ks[i])
    requires |ks| >= 1 ==> pieces[0] == "" + ks[0]
    requires forall i :: 1 <= i < |ks| ==> pieces[i] == " " + ks[i]
    ensures MapSeq(pieces, Trim) == ks
  {
    var trimmed := MapSeq(pieces, Trim);
    forall i | 0 <= i < |ks| ensures trimmed[i] == ks[i] {
      if i == 0 {
        assert pieces[0] == ks[0];
      }
      TrimPiece(pieces[i], ks[i]);
    }
  }

  lemma TrimPiece(x: string, k: string)
    requires Trimmed(k) && (x == k || x == " " + k)
    ensures Trim(x) == k
  {
    TrimmedIsFixed(k);
    if x != k {
      TrimSkipsLeadingSpace(" ", k);
    }
  }

  /** A parsed list shown joined and parsed again is the same list. */
  lemma ParseCommaListStable(s: string)
    ensures ParseCommaList(Join(ParseCommaList(s), ", ")) == ParseCommaList(s)
  {
    JoinThenParse(ParseCommaList(s));
  }

  lemma TrimIsSegment(s: string)
    ensures forall c :: c in Trim(s) ==> c in s
  {
    var i := LeadingSpace(s);
    var r := Trim(s);
    forall c | c in r ensures c in s {
      var k :| 0 <= k < |r| && r[k] == c;
      assert s[i + k] == c;
    }
  }

  // ---------------------------------------------------------------------------
  // Sequences: filter, map, sub-sequences, de-duplication
  // ---------------------------------------------------------------------------

  /** Array.prototype.filter. */
  function Filter<T>(s: seq<T>, p: T -> bool): (r: seq<T>)
    ensures |r| <= |s|
    ensures forall i :: 0 <= i < |r| ==> r[i] in s && p(r[i])
    ensures forall i :: 0 <= i < |s| && p(s[i]) ==> s[i] in r
  {
    if s == [] then []
    else (if p(s[0]) then [s[0]] else []) + Filter(s[1..], p)
  }

  lemma {:induction false} FilterAppend<T>(a: seq<T>, b: seq<T>, p: T -> bool)
    ensures Filter(a + b, p) == Filter(a, p) + Filter(b, p)
  {
    if a != [] {
      assert (a + b)[0] == a[0];
      assert (a + b)[1..] == a[1..] + b;
      FilterAppend(a[1..], b, p);
    } else {
      assert a + b == b;
    }
  }

  /** A filter that keeps everything is the identity. */
  lemma {:induction false} FilterKeepsAll<T>(s: seq<T>, p: T -> bool)
    requires forall x :: x in s ==> p(x)
    ensures Filter(s, p) == s
  {
    if s != [] {
      FilterKeepsAll(s[1..], p);
    }
  }

  /** `a` is `b` with some elements dropped, order kept. */
  predicate IsSubsequence<T(==)>(a: seq<T>, b: seq<T>)
    decreases |b|
  {
    if a == [] then true
    else if b == [] then false
    else (a[0] == b[0] && IsSubsequence(a[1..], b[1..])) || IsSubsequence(a, b[1..])
  }

  /** Filtering keeps the relative order of what it keeps. */
  lemma {:induction false} FilterIsSubsequence<T>(s: seq<T>, p: T -> bool)
    ensures IsSubsequence(Filter(s, p), s)
  {
    if s != [] {
      FilterIsSubsequence(s[1..], p);
      var r := Filter(s, p);
      if p(s[0]) {
        assert r[0] == s[0] && r[1..] == Filter(s[1..], p);
      } else {
        assert r == Filter(s[1..], p);
      }
    }
  }

  /** A sub-sequence of a list without repetitions has none either, and holds
      only elements of that list. */
  lemma {:induction false} SubsequenceOfDistinctHasNoDuplicates<T>(a: seq<T>, b: seq<T>)
    requires IsSubsequence(a, b) && NoDuplicates(b)
    ensures NoDuplicates(a)
    ensures forall x :: x in a ==> x in b
    decreases |b|
  {
    if a != [] {
      assert b != [];
      assert NoDuplicates(b[1..]);
      if a[0] == b[0] && IsSubsequence(a[1..], b[1..]) {
        SubsequenceOfDistinctHasNoDuplicates(a[1..], b[1..]);
        assert forall k :: 1 <= k < |a| ==> a[k] in b[1..];
        assert b[0] !in b[1..];
        forall i, j | 0 <= i < j < |a| ensures a[i] != a[j] {
          if i > 0 { assert a[i] == a[1..][i - 1] && a[j] == a[1..][j - 1]; }
        }
        forall x | x in a ensures x in b {
          if x != a[0] { assert x in a[1..]; }
        }
      } else {
        SubsequenceOfDistinctHasNoDuplicates(a, b[1..]);
      }
    }
  }

  /** `xs.map(x => p(x) ? f(x) : x)`: the entries that satisfy `p` are
      replaced by their image under `f`, the others are kept in place. */
  function UpdateWhere<T>(xs: seq<T>, p: T -> bool, f: T -> T): (r: seq<T>)
    ensures |r| == |xs|
    ensures forall k :: 0 <= k < |xs| && p(xs[k]) ==> r[k] == f(xs[k])
    ensures forall k :: 0 <= k < |xs| && !p(xs[k]) ==> r[k] == xs[k]
  {
    seq(|xs|, k requires 0 <= k < |xs| => if p(xs[k]) then f(xs[k]) else xs[k])
  }

  /** Updating where nothing matches changes nothing. */
  lemma UpdateWhereNoMatch<T>(xs: seq<T>, p: T -> bool, f: T -> T)
    requires forall k :: 0 <= k < |xs| ==> !p(xs[k])
    ensures UpdateWhere(xs, p, f) == xs
  {
  }

  /** When the update keeps the entries it touches selected, removing the
      selected entries afterwards gives what removing them before would: the
      update touched nothing else. */
  lemma {:induction false} FilterAfterUpdateWhere<T>(xs: seq<T>, p: T -> bool, keep: T -> bool, f: T -> T)
    requires forall x :: keep(x) == !p(x)
    requires forall x :: p(x) ==> p(f(x))
    ensures Filter(UpdateWhere(xs, p, f), keep) == Filter(xs, keep)
  {
    if xs != [] {
      var u := UpdateWhere(xs, p, f);
      assert u[1..] == UpdateWhere(xs[1..], p, f);
      FilterAfterUpdateWhere(xs[1..], p, keep, f);
      assert Filter(u, keep) == (if keep(u[0]) then [u[0]] else []) + Filter(u[1..], keep);
    }
  }

  /** Adding an entry at the front and then removing the entries it is
      selected with gives the original list back when none of those were
      there before. */
  lemma FilterAfterPrepend<T>(x: T, xs: seq<T>, keep: T -> bool)
    requires !keep(x) && forall k :: 0 <= k < |xs| ==> keep(xs[k])
    ensures Filter([x] + xs, keep) == xs
  {
    assert ([x] + xs)[1..] == xs;
    FilterKeepsAll(xs, keep);
  }

  /** Array.prototype.map. */
  function MapSeq<T, U>(s: seq<T>, f: T -> U): (r: seq<U>)
    ensures |r| == |s|
    ensures forall i :: 0 <= i < |s| ==> r[i] == f(s[i])
  {
    seq(|s|, i requires 0 <= i < |s| => f(s[i]))
  }

  predicate NoDuplicates<T(==)>(s: seq<T>)
  {
    forall i, j :: 0 <= i < j < |s| ==> s[i] != s[j]
  }

  /** `[...new Set(s)]`: each value once, in order of first occurrence, built
      by inserting the elements one by one as a Set does. */
  function Distinct<T(==)>(s: seq<T>): (r: seq<T>)
    ensures NoDuplicates(r)
    ensures forall i :: 0 <= i < |r| ==> r[i] in s
    ensures forall i :: 0 <= i < |s| ==> s[i] in r
    ensures |r| <= |s|
  {
    if s == [] then []
    else
      var p := Distinct(s[..|s| - 1]);
      var x := s[|s| - 1];
      assert s == s[..|s| - 1] + [x];
      if x in p then p else p + [x]
  }

  /** In the de-duplicated list, the value first seen earlier comes first. */
  lemma {:induction false} DistinctKeepsFirstOccurrenceOrder<T>(s: seq<T>, i: nat, j: nat)
    requires i < j < |Distinct(s)|
    ensures FirstIndex(s, Distinct(s)[i]) < FirstIndex(s, Distinct(s)[j])
  {
    var p := Distinct(s[..|s| - 1]);
    var x := s[|s| - 1];
    var pre := s[..|s| - 1];
    var r := Distinct(s);
    assert s == pre + [x];
    forall y | y in pre ensures FirstIndex(s, y) == FirstIndex(pre, y) {
      FirstIndexPrefix(pre, [x], y);
    }
    if x in p {
      assert r == p;
      DistinctKeepsFirstOccurrenceOrder(pre, i, j);
    } else {
      assert r == p + [x];
      if j < |p| {
        DistinctKeepsFirstOccurrenceOrder(pre, i, j);
      } else {
        assert r[j] == x && x !in pre;
        assert r[i] in pre;
        FirstIndexBound(pre, r[i]);
        FirstIndexLast(pre, x);
      }
    }
  }

  /** The index at which `x` first appears in `s`. */
  function FirstIndex<T(==)>(s: seq<T>, x: T): (i: nat)
    requires x in s
    ensures i < |s| && s[i] == x && x !in s[..i]
  {
    if s[0] == x then 0
    else
      assert x in s[1..];
      var j := FirstIndex(s[1..], x);
      assert s[..1 + j] == [s[0]] + s[1..][..j];
      1 + j
  }

  lemma FirstIndexPrefix<T>(a: seq<T>, b: seq<T>, x: T)
    requires x in a
    ensures FirstIndex(a + b, x) == FirstIndex(a, x)
  {
    var i := FirstIndex(a, x);
    var k := FirstIndex(a + b, x);
    assert forall m :: 0 <= m < i ==> a[m] != x by {
      forall m | 0 <= m < i ensures a[m] != x { assert a[..i][m] == a[m]; }
    }
    assert forall m :: 0 <= m < k ==> (a + b)[m] != x by {
      forall m | 0 <= m < k ensures (a + b)[m] != x { assert (a + b)[..k][m] == (a + b)[m]; }
    }
    assert (a + b)[i] == x;
  }

  lemma FirstIndexBound<T>(a: seq<T>, x: T)
    requires x in a
    ensures FirstIndex(a, x) < |a|
  {
  }

  lemma FirstIndexLast<T>(a: seq<T>, x: T)
    requires x !in a
    ensures FirstIndex(a + [x], x) == |a|
  {
    var k := FirstIndex(a + [x], x);
    assert forall m :: 0 <= m < |a| ==> (a + [x])[m] == a[m];
  }

  /** Filtering with a stricter test keeps a sub-sequence of what the looser
      test keeps. */
  lemma {:induction false} FilterStricterIsSubsequence<T>(s: seq<T>, p: T -> bool, q: T -> bool)
    requires forall x :: p(x) ==> q(x)
    ensures IsSubsequence(Filter(s, p), Filter(s, q))
  {
    if s != [] {
      FilterStricterIsSubsequence(s[1..], p, q);
      var a, b := Filter(s, p), Filter(s, q);
      if p(s[0]) {
        assert a[0] == b[0] && a[1..] == Filter(s[1..], p) && b[1..] == Filter(s[1..], q);
      } else if q(s[0]) {
        assert a == Filter(s[1..], p) && b[1..] == Filter(s[1..], q);
        SubsequenceOfTail(a, b);
      } else {
        assert a == Filter(s[1..], p) && b == Filter(s[1..], q);
      }
    }
  }

  /** A sub-sequence of the tail is a sub-sequence of the whole. */
  lemma SubsequenceOfTail<T>(a: seq<T>, b: seq<T>)
    requires b != [] && IsSubsequence(a, b[1..])
    ensures IsSubsequence(a, b)
  {
  }

  // ---------------------------------------------------------------------------
  // Editing a list at an index, as the form handlers do
  // ---------------------------------------------------------------------------

  /** `xs.filter((_, i) => i !== index)`. */
  function RemoveIndex<T>(xs: seq<T>, index: int): (r: seq<T>)
    ensures 0 <= index < |xs| ==> |r| == |xs| - 1
    ensures 0 <= index < |xs| ==> forall j :: 0 <= j < |r| ==> r[j] == if j < index then xs[j] else xs[j + 1]
    ensures !(0 <= index < |xs|) ==> r == xs
  {
    if 0 <= index < |xs| then xs[..index] + xs[index + 1..] else xs
  }

  /** `xs.map((x, i) => i === index ? f(x) : x)`. */
  function UpdateAt<T>(xs: seq<T>, index: int, f: T -> T): (r: seq<T>)
    ensures |r| == |xs|
    ensures forall j :: 0 <= j < |xs| ==> r[j] == if j == index then f(xs[j]) else xs[j]
  {
    seq(|xs|, j requires 0 <= j < |xs| => if j == index then f(xs[j]) else xs[j])
  }

  /** Removing what was just appended gives the list back. */
  lemma RemoveLastAppended<T>(xs: seq<T>, x: T)
    ensures RemoveIndex(xs + [x], |xs|) == xs
  {
    assert (xs + [x])[..|xs|] == xs;
  }

  /** Removing one entry of a list of at least two leaves a non-empty list,
      and every survivor was in the list. */
  lemma RemoveIndexKeepsRest<T>(xs: seq<T>, index: int)
    requires |xs| > 1
    ensures var r := RemoveIndex(xs, index);
      |r| >= 1 && forall j :: 0 <= j < |r| ==> r[j] in xs
  {
    var r := RemoveIndex(xs, index);
    forall j | 0 <= j < |r| ensures r[j] in xs {
      if 0 <= index < |xs| && j >= index {
        assert r[j] == xs[j + 1];
      }
    }
  }

  // ---------------------------------------------------------------------------
  // Numbers rendered as text
  // ---------------------------------------------------------------------------

  function DigitChar(d: nat): (c: char)
    requires d < 10
  {
    ('0' as int + d) as char
  }

  /** The decimal text of a non-negative integer, as template literals and
      `toString` render it. */
  function Dec(n: nat): (r: string)
    ensures |r| >= 1
    ensures n >= 10 <==> |r| >= 2
    ensures forall k :: 0 <= k < |r| ==> '0' <= r[k] <= '9'
  {
    if n < 10 then [DigitChar(n)] else Dec(n / 10) + [DigitChar(n % 10)]
  }

  /** Different numbers have different decimal texts. */
  lemma {:induction false} DecInjective(a: nat, b: nat)
    requires Dec(a) == Dec(b)
    ensures a == b
  {
    if a >= 10 && b >= 10 {
      var da, db := Dec(a), Dec(b);
      assert da[|da| - 1] == DigitChar(a % 10) && db[|db| - 1] == DigitChar(b % 10);
      assert da[..|da| - 1] == Dec(a / 10) && db[..|db| - 1] == Dec(b / 10);
      DecInjective(a / 10, b / 10);
    } else if a < 10 && b < 10 {
      assert Dec(a)[0] == DigitChar(a) && Dec(b)[0] == DigitChar(b);
    }
  }

  /** `${Math.floor(m / 60)}h ${m % 60}m`: a number of minutes as hours and
      minutes. */
  function HoursMinutes(m: nat): (r: string)
    ensures |r| >= 5 && r[|r| - 1] == 'm'
  {
    Dec(m / 60) + "h " + Dec(m % 60) + "m"
  }

  /** Different durations are shown differently: the text determines the
      number of minutes. */
  lemma HoursMinutesInjective(a: nat, b: nat)
    requires HoursMinutes(a) == HoursMinutes(b)
    ensures a == b
  {
    var ra, rb := " " + Dec(a % 60) + "m", " " + Dec(b % 60) + "m";
    HoursMinutesShape(a);
    HoursMinutesShape(b);
    DigitsBeforeMarker(Dec(a / 60), Dec(b / 60), 'h', ra, rb);
    assert Dec(a % 60) == ra[1..|ra| - 1] && Dec(b % 60) == rb[1..|rb| - 1];
    DecInjective(a / 60, b / 60);
    DecInjective(a % 60, b % 60);
  }

  lemma HoursMinutesShape(m: nat)
    ensures HoursMinutes(m) == Dec(m / 60) + ['h'] + (" " + Dec(m % 60) + "m")
  {
    var h, mm := Dec(m / 60), Dec(m % 60);
    assert "h " == ['h'] + " ";
    SeqAssoc3(h, ['h'], " ");
    SeqAssoc3(h + ['h'], " ", mm);
    SeqAssoc3(h + ['h'], " " + mm, "m");
  }

  /** Two texts that start with digits followed by the same non-digit agree
      on the digits and on what follows. */
  lemma DigitsBeforeMarker(x: string, y: string, c: char, xs: string, ys: string)
    requires forall k :: 0 <= k < |x| ==> '0' <= x[k] <= '9'
    requires forall k :: 0 <= k < |y| ==> '0' <= y[k] <= '9'
    requires !('0' <= c <= '9')
    requires x + [c] + xs == y + [c] + ys
    ensures x == y && xs == ys
  {
    var s := x + [c] + xs;
    MarkerPosition(x, c, xs);
    MarkerPosition(y, c, ys);
    assert s[|x|] == c && s[|y|] == c;
    assert x == s[..|x|] && y == (y + [c] + ys)[..|y|];
    assert xs == s[|x| + 1..] && ys == (y + [c] + ys)[|y| + 1..];
  }

  /** In digits followed by a non-digit, that character first appears right
      after the digits. */
  lemma MarkerPosition(x: string, c: char, xs: string)
    requires forall k :: 0 <= k < |x| ==> '0' <= x[k] <= '9'
    requires !('0' <= c <= '9')
    ensures forall k :: 0 <= k <= |x| ==> ((x + [c] + xs)[k] == c <==> k == |x|)
  {
    forall k | 0 <= k < |x| ensures (x + [c] + xs)[k] == x[k] {
    }
  }
}
