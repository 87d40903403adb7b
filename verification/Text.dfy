/** String operations of the Go standard library that the modelled code relies on. */
module Text {

  /** The Unicode White_Space characters, as `unicode.IsSpace` tests them. */
  predicate IsSpace(c: char) {
    || c == ' ' || '\t' <= c <= '\r'
    || c == '\U{0085}' || c == '\U{00A0}' || c == '\U{1680}'
    || '\U{2000}' <= c <= '\U{200A}'
    || c == '\U{2028}' || c == '\U{2029}' || c == '\U{202F}' || c == '\U{205F}' || c == '\U{3000}'
  }

  function TrimLeft(s: string): string {
    if s != "" && IsSpace(s[0]) then TrimLeft(s[1..]) else s
  }

  function TrimRight(s: string): string {
    if s != "" && IsSpace(s[|s| - 1]) then TrimRight(s[..|s| - 1]) else s
  }

  /** `strings.TrimSpace` */
  function TrimSpace(s: string): string {
    TrimRight(TrimLeft(s))
  }

  predicate Trimmed(s: string) {
    s == "" || (!IsSpace(s[0]) && !IsSpace(s[|s| - 1]))
  }

  lemma {:induction false} TrimLeftTrims(s: string)
    ensures TrimLeft(s) == "" || !IsSpace(TrimLeft(s)[0])
    ensures forall c :: c in TrimLeft(s) ==> c in s
  {
    if s != "" && IsSpace(s[0]) {
      TrimLeftTrims(s[1..]);
    }
  }

  lemma {:induction false} TrimRightTrims(s: string)
    requires s == "" || !IsSpace(s[0])
    ensures Trimmed(TrimRight(s))
    ensures forall c :: c in TrimRight(s) ==> c in s
  {
    if s != "" && IsSpace(s[|s| - 1]) {
      TrimRightTrims(s[..|s| - 1]);
    }
  }

  /** Trimming yields a trimmed string, introduces no character, and leaves a trimmed string alone. */
  lemma TrimSpaceTrims(s: string)
    ensures Trimmed(TrimSpace(s))
    ensures forall c :: c in TrimSpace(s) ==> c in s
    ensures Trimmed(s) ==> TrimSpace(s) == s
  {
    TrimLeftTrims(s);
    TrimRightTrims(TrimLeft(s));
  }

  predicate HasPrefix(s: string, prefix: string) {
    |prefix| <= |s| && s[..|prefix|] == prefix
  }

  /** `strings.Join` with a one-character separator. */
  function Join(parts: seq<string>, sep: char): string {
    if |parts| == 0 then ""
    else if |parts| == 1 then parts[0]
    else parts[0] + [sep] + Join(parts[1..], sep)
  }

  /** `strings.Split` with a one-character separator. */
  function Split(s: string, sep: char): (parts: seq<string>)
    ensures |parts| > 0
  {
    if s == "" then [""]
    else
      var rest := Split(s[1..], sep);
      if s[0] == sep then [""] + rest else [[s[0]] + rest[0]] + rest[1..]
  }

  /** `strings.Trim` with a one-character cutset. */
  function TrimChar(s: string, c: char): string
    decreases |s|
  {
    if s != "" && s[0] == c then TrimChar(s[1..], c)
    else if s != "" && s[|s| - 1] == c then TrimChar(s[..|s| - 1], c)
    else s
  }

  lemma {:induction false} JoinEnds(parts: seq<string>, sep: char)
    requires parts != []
    requires forall part :: part in parts ==> part != "" && sep !in part
    ensures Join(parts, sep) != ""
    ensures Join(parts, sep)[0] != sep && Join(parts, sep)[|Join(parts, sep)| - 1] != sep
    decreases |parts|
  {
    assert parts[0] in parts;
    assert parts[0][0] in parts[0] && parts[0][|parts[0]| - 1] in parts[0];
    if |parts| > 1 {
      assert forall part :: part in parts[1..] ==> part in parts;
      JoinEnds(parts[1..], sep);
    }
  }

  lemma {:induction false} SplitFree(s: string, sep: char)
    ensures forall part :: part in Split(s, sep) ==> sep !in part
  {
    if s != "" {
      SplitFree(s[1..], sep);
      var rest := Split(s[1..], sep);
      forall part | part in Split(s, sep) ensures sep !in part {
        assert rest[0] in rest;
      }
    }
  }

  /** A separator splits what stands before it from what stands after. */
  lemma {:induction false} SplitAt(a: string, sep: char, b: string)
    ensures Split(a + [sep] + b, sep) == Split(a, sep) + Split(b, sep)
  {
    var s := a + [sep] + b;
    if a == "" {
      assert s[0] == sep && s[1..] == b;
    } else {
      assert s[0] == a[0] && s[1..] == a[1..] + [sep] + b;
      SplitAt(a[1..], sep, b);
    }
  }

  /** The parts of each part. */
  function SplitAll(parts: seq<string>, sep: char): seq<string> {
    if parts == [] then [] else Split(parts[0], sep) + SplitAll(parts[1..], sep)
  }

  lemma {:induction false} SplitJoinAll(parts: seq<string>, sep: char)
    requires parts != []
    ensures Split(Join(parts, sep), sep) == SplitAll(parts, sep)
    decreases |parts|
  {
    if |parts| == 1 {
      assert SplitAll(parts[1..], sep) == [];
    } else {
      SplitAt(parts[0], sep, Join(parts[1..], sep));
      SplitJoinAll(parts[1..], sep);
    }
  }

  lemma {:induction false} SplitAllAppend(a: seq<string>, b: seq<string>, sep: char)
    ensures SplitAll(a + b, sep) == SplitAll(a, sep) + SplitAll(b, sep)
    decreases |a|
  {
    if a == [] {
      assert a + b == b;
    } else {
      SplitAllAppend(a[1..], b, sep);
      assert (a + b)[1..] == a[1..] + b;
      var head, middle, tail := Split(a[0], sep), SplitAll(a[1..], sep), SplitAll(b, sep);
      assert head + (middle + tail) == (head + middle) + tail;
    }
  }

  lemma {:induction false} SplitWhole(s: string, sep: char)
    requires sep !in s
    ensures Split(s, sep) == [s]
  {
    if s != "" {
      SplitWhole(s[1..], sep);
      assert s[0] in s && s == [s[0]] + s[1..];
    }
  }

  lemma {:induction false} SplitAllWhole(parts: seq<string>, sep: char)
    requires forall part :: part in parts ==> sep !in part
    ensures SplitAll(parts, sep) == parts
    decreases |parts|
  {
    if parts != [] {
      SplitWhole(parts[0], sep);
      SplitAllWhole(parts[1..], sep);
    }
  }

  lemma {:induction false} SplitAllHas(parts: seq<string>, sep: char, part: string)
    requires part in parts && sep !in part
    ensures part in SplitAll(parts, sep)
    decreases |parts|
  {
    if parts[0] == part {
      SplitWhole(part, sep);
    } else {
      SplitAllHas(parts[1..], sep, part);
    }
  }

  lemma {:induction false} JoinNonempty(parts: seq<string>, sep: char)
    requires parts != [] && forall part :: part in parts ==> part != ""
    ensures Join(parts, sep) != ""
  {
    assert parts[0] in parts;
  }

  /** A list of nonempty parts free of the separator survives being joined, trimmed and split. */
  lemma SplitTrimJoin(parts: seq<string>, sep: char)
    requires parts != []
    requires forall part :: part in parts ==> part != "" && sep !in part
    ensures Join(parts, sep) != ""
    ensures Split(TrimChar(Join(parts, sep), sep), sep) == parts
  {
    JoinEnds(parts, sep);
    SplitJoinAll(parts, sep);
    SplitAllWhole(parts, sep);
  }

  /** Go's `<` on strings: lexicographic by character. */
  predicate Less(a: string, b: string) {
    b != "" && (a == "" || a[0] < b[0] || (a[0] == b[0] && Less(a[1..], b[1..])))
  }

  lemma {:induction false} LessTrichotomy(a: string, b: string)
    ensures !(Less(a, b) && Less(b, a))
    ensures Less(a, b) || Less(b, a) || a == b
    ensures !Less(a, a)
  {
    if a != "" {
      LessTrichotomy(a[1..], a[1..]);
      if b != "" {
        LessTrichotomy(a[1..], b[1..]);
        assert a == [a[0]] + a[1..] && b == [b[0]] + b[1..];
      }
    }
  }

  lemma {:induction false} LessTransitive(a: string, b: string, c: string)
    requires Less(a, b) && Less(b, c)
    ensures Less(a, c)
  {
    if a != "" && a[0] == b[0] && b[0] == c[0] {
      LessTransitive(a[1..], b[1..], c[1..]);
    }
  }

  predicate AllSpace(s: string) {
    forall c :: c in s ==> IsSpace(c)
  }

  lemma {:induction false} TrimLeftDrops(l: string, s: string)
    requires AllSpace(l)
    ensures TrimLeft(l + s) == TrimLeft(s)
  {
    if l == "" {
      assert l + s == s;
    } else {
      assert l[0] in l && (l + s)[1..] == l[1..] + s;
      TrimLeftDrops(l[1..], s);
    }
  }

  lemma {:induction false} TrimRightDrops(s: string, r: string)
    requires AllSpace(r)
    ensures TrimRight(s + r) == TrimRight(s)
  {
    if r == "" {
      assert s + r == s;
    } else {
      var front := r[..|r| - 1];
      assert r[|r| - 1] in r && (s + r)[..|s + r| - 1] == s + front;
      TrimRightDrops(s, front);
    }
  }

  /** Trimming takes spaces off both ends and nothing else. */
  lemma TrimSpaceIs(l: string, core: string, r: string)
    requires AllSpace(l) && AllSpace(r) && Trimmed(core)
    ensures TrimSpace(l + core + r) == core
  {
    assert l + core + r == l + (core + r);
    TrimLeftDrops(l, core + r);
    if core == "" {
      TrimLeftDrops(r, "");
      assert core + r == r + "";
    } else {
      TrimRightDrops(core, r);
    }
  }

  lemma {:induction false} TrimLeftSplits(s: string) returns (l: string)
    ensures AllSpace(l) && s == l + TrimLeft(s)
  {
    if s != "" && IsSpace(s[0]) {
      var rest := TrimLeftSplits(s[1..]);
      l := [s[0]] + rest;
    } else {
      l := "";
    }
  }

  lemma {:induction false} TrimRightSplits(s: string) returns (r: string)
    ensures AllSpace(r) && s == TrimRight(s) + r
  {
    if s != "" && IsSpace(s[|s| - 1]) {
      var rest := TrimRightSplits(s[..|s| - 1]);
      r := rest + [s[|s| - 1]];
    } else {
      r := "";
    }
  }

  lemma TrimSpaceSplits(s: string) returns (l: string, r: string)
    ensures AllSpace(l) && AllSpace(r) && s == l + TrimSpace(s) + r
  {
    l := TrimLeftSplits(s);
    r := TrimRightSplits(TrimLeft(s));
  }

  lemma TrimmedAfter(word: string, l: string, core: string)
    requires word != "" && Trimmed(word) && Trimmed(core) && core != ""
    ensures Trimmed(word + (l + core))
  {
    var s := word + (l + core);
    assert s[0] == word[0] && s[|s| - 1] == core[|core| - 1];
  }

  lemma TrimBlankAfter(word: string, blank: string)
    requires word != "" && Trimmed(word) && AllSpace(blank)
    ensures TrimSpace(word + blank) == word
  {
    TrimSpaceIs("", word, blank);
    assert word + blank == "" + word + blank;
  }

  lemma TrimWordsAfter(word: string, l: string, core: string, r: string)
    requires word != "" && Trimmed(word) && Trimmed(core) && core != "" && AllSpace(l) && AllSpace(r)
    ensures TrimSpace(word + (l + core + r)) == word + (l + core) && TrimSpace(l + core) == core
  {
    TrimmedAfter(word, l, core);
    TrimSpaceIs("", word + (l + core), r);
    assert word + (l + core + r) == "" + (word + (l + core)) + r;
    TrimSpaceIs(l, core, "");
    assert l + core == l + core + "";
  }

  /** In front of a word the spaces after it are still trimmed from the whole. */
  lemma TrimSpaceAfter(word: string, s: string) returns (rest: string)
    requires word != "" && Trimmed(word)
    ensures TrimSpace(word + s) == word + rest && TrimSpace(rest) == TrimSpace(s)
  {
    var core := TrimSpace(s);
    var l, r := TrimSpaceSplits(s);
    if core == "" {
      rest := "";
      TrimBlankAfter(word, s);
    } else {
      rest := l + core;
      TrimSpaceTrims(s);
      TrimWordsAfter(word, l, core, r);
    }
  }

  /** The order of strings: a proper prefix first, and otherwise by the first character that differs. */
  lemma {:induction false} LessIs(common: string, a: string, b: string)
    ensures b != "" ==> Less(common, common + b)
    ensures a != "" && b != "" && a[0] < b[0] ==> Less(common + a, common + b) && !Less(common + b, common + a)
  {
    if common == "" {
      assert common + a == a && common + b == b;
      LessTrichotomy(a, b);
    } else {
      LessIs(common[1..], a, b);
      assert (common + a)[1..] == common[1..] + a && (common + b)[1..] == common[1..] + b;
    }
  }

  /** The white space characters by number. */
  lemma SpacesWrittenOut(c: char)
    ensures var n := c as int;
            IsSpace(c) <==> || 9 <= n <= 13 || n == 32 || n == 0x85 || n == 0xA0 || n == 0x1680 || 0x2000 <= n <= 0x200A
                            || n == 0x2028 || n == 0x2029 || n == 0x202F || n == 0x205F || n == 0x3000
  {
  }
}
