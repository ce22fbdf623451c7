/** Strings as sequences of characters: ordering, trimming, splitting and joining. */
module Text {
  import opened Sequences
  import opened Sorting

  /** Unicode white space. */
  predicate IsSpace(c: char)
  {
    var n := c as int;
    || 0x09 <= n <= 0x0d || n == 0x20 || n == 0x85 || n == 0xa0 || n == 0x1680
    || 0x2000 <= n <= 0x200a || n == 0x2028 || n == 0x2029 || n == 0x202f || n == 0x205f || n == 0x3000
  }

  function TrimLeft(s: string): string
  {
    if s != "" && IsSpace(s[0]) then TrimLeft(s[1..]) else s
  }

  function TrimRight(s: string): string
  {
    if s != "" && IsSpace(s[|s| - 1]) then TrimRight(s[..|s| - 1]) else s
  }

  function TrimSpace(s: string): string { TrimRight(TrimLeft(s)) }

  predicate AllWhite(s: string) { forall i :: 0 <= i < |s| ==> IsSpace(s[i]) }

  /** What trimming takes off on either side is white space. */
  lemma {:induction false} TrimLeftParts(s: string) returns (u: string)
    ensures s == u + TrimLeft(s) && AllWhite(u)
  {
    if s != "" && IsSpace(s[0]) {
      var r := TrimLeftParts(s[1..]);
      u := [s[0]] + r;
      JoinAssociates([s[0]], r, TrimLeft(s[1..]));
      assert s == [s[0]] + s[1..];
    } else {
      u := "";
    }
  }

  lemma {:induction false} TrimRightParts(s: string) returns (v: string)
    ensures s == TrimRight(s) + v && AllWhite(v)
  {
    if s != "" && IsSpace(s[|s| - 1]) {
      var n := |s| - 1;
      var r := TrimRightParts(s[..n]);
      v := r + [s[n]];
      JoinAssociates(TrimRight(s[..n]), r, [s[n]]);
      assert s == s[..n] + [s[n]];
    } else {
      v := "";
    }
  }

  lemma {:induction false} TrimLeftEnds(s: string)
    ensures TrimLeft(s) != "" ==> !IsSpace(TrimLeft(s)[0])
  {
    if s != "" && IsSpace(s[0]) {
      TrimLeftEnds(s[1..]);
    }
  }

  lemma {:induction false} TrimRightEnds(s: string)
    requires s != "" ==> !IsSpace(s[0])
    ensures var t := TrimRight(s); t != "" ==> !IsSpace(t[0]) && !IsSpace(t[|t| - 1])
  {
    if s != "" && IsSpace(s[|s| - 1]) {
      TrimRightEnds(s[..|s| - 1]);
    }
  }

  lemma TrimEnds(s: string)
    ensures var t := TrimSpace(s); t != "" ==> !IsSpace(t[0]) && !IsSpace(t[|t| - 1])
  {
    TrimLeftEnds(s);
    TrimRightEnds(TrimLeft(s));
  }

  /** Trimming takes off all the white space around a text that neither begins nor ends with any. */
  lemma TrimPadded(u: string, t: string, v: string)
    requires AllWhite(u) && AllWhite(v) && t != "" && !IsSpace(t[0]) && !IsSpace(t[|t| - 1])
    ensures TrimSpace(u + t + v) == t
  {
    assert u + t + v == u + (t + v);
    PadLeft(u, t + v);
    PadRight(t, v);
  }

  lemma {:induction false} PadLeft(u: string, t: string)
    requires AllWhite(u) && t != "" && !IsSpace(t[0])
    ensures TrimLeft(u + t) == t
  {
    if u == "" {
      assert u + t == t;
    } else {
      assert (u + t)[1..] == u[1..] + t;
      PadLeft(u[1..], t);
    }
  }

  lemma {:induction false} PadRight(t: string, v: string)
    requires AllWhite(v) && t != "" && !IsSpace(t[|t| - 1])
    ensures TrimRight(t + v) == t
  {
    if v == "" {
      assert t + v == t;
    } else {
      var n := |v| - 1;
      assert (t + v)[..|t + v| - 1] == t + v[..n];
      PadRight(t, v[..n]);
    }
  }

  /** Byte-wise order of Go strings, on characters. */
  predicate Less(a: string, b: string)
  {
    b != "" && (a == "" || a[0] < b[0] || (a[0] == b[0] && Less(a[1..], b[1..])))
  }

  lemma {:induction false} LessTotal(a: string, b: string)
    ensures a == b || Less(a, b) || Less(b, a)
    ensures !(Less(a, b) && Less(b, a))
    ensures a == b ==> !Less(a, b)
  {
    if a != "" && b != "" && a[0] == b[0] {
      LessTotal(a[1..], b[1..]);
      if a[1..] == b[1..] {
        assert a == [a[0]] + a[1..] && b == [b[0]] + b[1..];
      }
    }
  }

  lemma {:induction false} LessTransitive(a: string, b: string, c: string)
    requires Less(a, b) && Less(b, c)
    ensures Less(a, c)
  {
    if a != "" && a[0] == b[0] && b[0] == c[0] {
      LessTransitive(a[1..], b[1..], c[1..]);
    }
  }

  /** The first difference decides, and a proper prefix goes first. */
  lemma {:induction false} LessMeans(p: string, x: char, s: string, y: char, t: string)
    ensures x != y ==> (Less(p + [x] + s, p + [y] + t) <==> x < y)
    ensures Less(p, p + [y] + t)
  {
    var a, b := p + [x] + s, p + [y] + t;
    if p != "" {
      assert a[1..] == p[1..] + [x] + s && b[1..] == p[1..] + [y] + t;
      LessMeans(p[1..], x, s, y, t);
    }
  }

  /** The pieces of s between separators; always at least one. */
  function Split(s: string, sep: char): (parts: seq<string>)
    ensures parts != []
  {
    if s == "" then [""]
    else
      var c, before := s[|s| - 1], Split(s[..|s| - 1], sep);
      if c == sep then before + [""]
      else before[..|before| - 1] + [before[|before| - 1] + [c]]
  }

  function Join(parts: seq<string>, sep: char): string
  {
    if parts == [] then ""
    else if |parts| == 1 then parts[0]
    else Join(parts[..|parts| - 1], sep) + [sep] + parts[|parts| - 1]
  }

  lemma {:induction false} SplitWhole(t: string, sep: char)
    requires sep !in t
    ensures Split(t, sep) == [t]
  {
    if t != "" {
      SplitWhole(t[..|t| - 1], sep);
      assert t == t[..|t| - 1] + [t[|t| - 1]];
    }
  }

  /** No piece contains the separator. */
  lemma {:induction false} SplitPlain(s: string, sep: char)
    ensures forall i :: 0 <= i < |Split(s, sep)| ==> sep !in Split(s, sep)[i]
  {
    if s != "" {
      SplitPlain(s[..|s| - 1], sep);
    }
  }

  lemma {:induction false} SplitAppend(s: string, sep: char, t: string)
    requires sep !in t
    ensures Split(s + [sep] + t, sep) == Split(s, sep) + [t]
  {
    var u := s + [sep] + t;
    if t == "" {
      assert u[..|u| - 1] == s;
    } else {
      var n := |t| - 1;
      SplitAppend(s, sep, t[..n]);
      assert u[..|u| - 1] == s + [sep] + t[..n];
      assert t == t[..n] + [t[n]];
    }
  }

  /** Splitting undoes joining separator-free parts. */
  lemma {:induction false} SplitJoin(parts: seq<string>, sep: char)
    requires parts != [] && forall i :: 0 <= i < |parts| ==> sep !in parts[i]
    ensures Split(Join(parts, sep), sep) == parts
  {
    var n := |parts| - 1;
    if n == 0 {
      SplitWhole(parts[0], sep);
    } else {
      var before, last := parts[..n], parts[n];
      assert parts == before + [last];
      SplitJoin(before, sep);
      JoinLast(before, last, sep);
      SplitAppend(Join(before, sep), sep, last);
    }
  }

  /** Joining undoes splitting. */
  lemma {:induction false} JoinSplit(s: string, sep: char)
    ensures Join(Split(s, sep), sep) == s
  {
    if s != "" {
      var n := |s| - 1;
      JoinSplit(s[..n], sep);
      var before := Split(s[..n], sep);
      assert s == s[..n] + [s[n]];
      if s[n] == sep {
        JoinLast(before, "", sep);
        assert s[..n] + [sep] + "" == s;
      } else {
        JoinLonger(before, s[n], sep);
      }
    }
  }

  lemma JoinLast(parts: seq<string>, t: string, sep: char)
    requires parts != []
    ensures Join(parts + [t], sep) == Join(parts, sep) + [sep] + t
  {
    assert (parts + [t])[..|parts|] == parts;
  }

  lemma JoinLonger(parts: seq<string>, c: char, sep: char)
    requires parts != []
    ensures Join(parts[..|parts| - 1] + [parts[|parts| - 1] + [c]], sep) == Join(parts, sep) + [c]
  {
    var n := |parts| - 1;
    if n > 0 {
      JoinLast(parts[..n], parts[n] + [c], sep);
      assert Join(parts[..n], sep) + [sep] + (parts[n] + [c]) == Join(parts[..n], sep) + [sep] + parts[n] + [c];
    }
  }

  // ----- Sorting strings -----

  function ByName(): (string, string) -> bool { (a: string, b: string) => Less(a, b) }

  lemma ByNameOrders()
    ensures WeakOrder(ByName())
  {
    forall a, b, c ensures Coherent(ByName(), a, b, c) {
      LessTotal(a, b);
      LessTotal(b, c);
      LessTotal(a, c);
      if Less(a, b) && Less(b, c) {
        LessTransitive(a, b, c);
      }
    }
  }

  function SortStrings(s: seq<string>): seq<string> { Sort(ByName(), s) }

  predicate AscendingStrings(s: seq<string>) { forall i, j :: 0 <= i < j < |s| ==> !Less(s[j], s[i]) }

  /** Sorting orders the strings and keeps each as often as it was there. */
  lemma SortStringsProps(s: seq<string>)
    ensures AscendingStrings(SortStrings(s))
    ensures multiset(SortStrings(s)) == multiset(s)
  {
    ByNameOrders();
    SortContent(ByName(), s);
    SortSorted(ByName(), s);
    var r := SortStrings(s);
    forall i, j | 0 <= i < j < |r| ensures !Less(r[j], r[i]) {
      assert !ByName()(r[j], r[i]);
    }
  }
}
