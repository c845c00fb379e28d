/** The string operations the ingestors use: digit tests, ASCII lower-casing,
    character replacement, prefix and substring tests, splitting, and the
    collation the store sorts text columns by. */
module Text {
  import opened Wrappers

  predicate IsDigit(c: char) {
    '0' <= c <= '9'
  }

  /** Every character is a decimal digit (vacuously true of ""). */
  predicate AllDigits(s: string) {
    forall i :: 0 <= i < |s| ==> IsDigit(s[i])
  }

  /** Python's `str.isdigit`, over ASCII: non-empty and all digits. */
  predicate IsDigits(s: string) {
    |s| > 0 && AllDigits(s)
  }

  function LowerChar(c: char): char {
    if 'A' <= c <= 'Z' then (c as int + 32) as char else c
  }

  /** `str.lower`, over ASCII letters. */
  function Lower(s: string): (r: string)
    ensures |r| == |s|
    ensures forall i :: 0 <= i < |s| ==> r[i] == LowerChar(s[i])
    decreases |s|
  {
    if |s| == 0 then "" else [LowerChar(s[0])] + Lower(s[1..])
  }

  /** `str.replace(from, to)` for one-character `from` and `to`. */
  function Replace(s: string, from: char, to: char): (r: string)
    ensures |r| == |s|
    ensures forall i :: 0 <= i < |s| ==> r[i] == (if s[i] == from then to else s[i])
    decreases |s|
  {
    if |s| == 0 then "" else [if s[0] == from then to else s[0]] + Replace(s[1..], from, to)
  }

  /** `str.startswith`. */
  predicate StartsWith(s: string, prefix: string) {
    |prefix| <= |s| && s[..|prefix|] == prefix
  }

  /** Python's `sub in s`. */
  predicate Contains(s: string, sub: string)
    decreases |s|
  {
    StartsWith(s, sub) || (|s| > 0 && Contains(s[1..], sub))
  }

  lemma {:induction false} ContainsAt(s: string, sub: string, k: nat)
    requires k <= |s| && StartsWith(s[k..], sub)
    ensures Contains(s, sub)
    decreases k
  {
    if k > 0 {
      assert s[1..][k - 1..] == s[k..];
      ContainsAt(s[1..], sub, k - 1);
    }
  }

  /** A string that never shows some character of `sub` does not contain it. */
  lemma {:induction false} NotContainsChar(s: string, sub: string, k: nat)
    requires k < |sub| && sub[k] !in s
    ensures !Contains(s, sub)
    decreases |s|
  {
    assert |sub| <= |s| ==> s[..|sub|][k] == s[k] && s[k] in s;
    if |s| > 0 {
      NotContainsChar(s[1..], sub, k);
    }
  }

  /** The value of the first of `prefixes`, in declaration order, that
      `control` starts with: a loop over a dict's items that returns on the
      first `startswith` match, or `np.select` over the same conditions. */
  function FirstPrefix<T(==)>(prefixes: seq<(string, T)>, control: string): (r: Option<T>)
    ensures r.None? <==> forall i :: 0 <= i < |prefixes| ==> !StartsWith(control, prefixes[i].0)
    ensures r.Some? ==> exists i :: 0 <= i < |prefixes| && StartsWith(control, prefixes[i].0) && r.value == prefixes[i].1
                                    && forall j :: 0 <= j < i ==> !StartsWith(control, prefixes[j].0)
    decreases |prefixes|
  {
    if |prefixes| == 0 then None
    else if StartsWith(control, prefixes[0].0) then Some(prefixes[0].1)
    else
      var r := FirstPrefix(prefixes[1..], control);
      assert forall i :: 1 <= i < |prefixes| ==> prefixes[i] == prefixes[1..][i - 1];
      if r.Some? then
        var i :| 0 <= i < |prefixes[1..]| && StartsWith(control, prefixes[1..][i].0) && r.value == prefixes[1..][i].1
                 && forall j :: 0 <= j < i ==> !StartsWith(control, prefixes[1..][j].0);
        assert forall j :: 0 <= j < i + 1 ==> !StartsWith(control, prefixes[j].0);
        r
      else r
  }

  /** The position of the first `c` in `s`. */
  function IndexOf(s: string, c: char): (r: Option<nat>)
    ensures r.Some? ==> r.value < |s| && s[r.value] == c && c !in s[..r.value]
    ensures r.None? <==> c !in s
    decreases |s|
  {
    if |s| == 0 then None
    else if s[0] == c then Some(0)
    else match IndexOf(s[1..], c)
      case None => None
      case Some(i) => assert s[..i + 1] == [s[0]] + s[1..][..i]; Some(i + 1)
  }

  /** `s.split(c)` for a one-character separator: always at least one piece. */
  function Split(s: string, c: char): (pieces: seq<string>)
    ensures |pieces| >= 1
    ensures forall i :: 0 <= i < |pieces| ==> c !in pieces[i]
    decreases |s|
  {
    match IndexOf(s, c)
    case None => [s]
    case Some(i) => [s[..i]] + Split(s[i + 1..], c)
  }

  /** `c.join(pieces)`. */
  function Join(pieces: seq<string>, c: char): string
    requires |pieces| >= 1
    decreases |pieces|
  {
    if |pieces| == 1 then pieces[0] else pieces[0] + [c] + Join(pieces[1..], c)
  }

  /** Splitting and re-joining on the same character gives the string back. */
  lemma {:induction false} JoinSplit(s: string, c: char)
    ensures Join(Split(s, c), c) == s
    decreases |s|
  {
    match IndexOf(s, c)
    case None =>
    case Some(i) =>
      JoinSplit(s[i + 1..], c);
      assert Split(s, c)[1..] == Split(s[i + 1..], c);
      assert s == s[..i] + [c] + s[i + 1..];
  }

  lemma IndexOfJoin(a: string, c: char, b: string)
    requires c !in a
    ensures IndexOf(a + [c] + b, c) == Some(|a|)
  {
    var s := a + [c] + b;
    assert s[|a|] == c;
    assert forall k :: 0 <= k < |a| ==> s[k] == a[k];
    assert forall k :: |a| < k <= |s| ==> s[..k][|a|] == c;
  }

  /** Joining pieces free of `c` and splitting again gives the pieces back. */
  lemma {:induction false} SplitJoin(pieces: seq<string>, c: char)
    requires |pieces| >= 1
    requires forall i :: 0 <= i < |pieces| ==> c !in pieces[i]
    ensures Split(Join(pieces, c), c) == pieces
    decreases |pieces|
  {
    if |pieces| > 1 {
      var rest := Join(pieces[1..], c);
      IndexOfJoin(pieces[0], c, rest);
      assert (pieces[0] + [c] + rest)[..|pieces[0]|] == pieces[0];
      assert (pieces[0] + [c] + rest)[|pieces[0]| + 1..] == rest;
      SplitJoin(pieces[1..], c);
      assert pieces == [pieces[0]] + pieces[1..];
    }
  }

  /** `path.split("/")[1].split(".")[0]`, the file stem the legacy ingestors
      store; `None` where the first split has one piece (an IndexError). */
  function Stem(path: string): (r: Option<string>)
    ensures r.Some? ==> '/' !in r.value && '.' !in r.value
    ensures r.None? <==> '/' !in path
  {
    var pieces := Split(path, '/');
    if |pieces| < 2 then None else Some(Split(pieces[1], '.')[0])
  }

  /** The stem of `dir/name.ext` is `name`. */
  lemma StemOfPath(dir: string, name: string, ext: string)
    requires '/' !in dir && '/' !in name && '/' !in ext && '.' !in name
    ensures Stem(dir + "/" + name + "." + ext) == Some(name)
  {
    var p := dir + "/" + name + "." + ext;
    var rest := name + "." + ext;
    assert p == dir + ['/'] + rest;
    IndexOfJoin(dir, '/', rest);
    assert p[..|dir|] == dir;
    assert p[|dir| + 1..] == rest;
    assert '/' !in rest;
    assert Split(rest, '/') == [rest];
    IndexOfJoin(name, '.', ext);
    assert rest[..|name|] == name;
  }

  /** Code-point lexicographic order, the collation of a text ORDER BY. */
  predicate StrLe(a: string, b: string)
    decreases |a|
  {
    if |a| == 0 then true
    else if |b| == 0 then false
    else if a[0] != b[0] then a[0] < b[0]
    else StrLe(a[1..], b[1..])
  }

  lemma {:induction false} StrLeTotal(a: string, b: string)
    ensures StrLe(a, b) || StrLe(b, a)
    decreases |a|
  {
    if |a| > 0 && |b| > 0 && a[0] == b[0] {
      StrLeTotal(a[1..], b[1..]);
    }
  }

  lemma {:induction false} StrLeAntisymmetric(a: string, b: string)
    requires StrLe(a, b) && StrLe(b, a)
    ensures a == b
    decreases |a|
  {
    if |a| > 0 && |b| > 0 {
      StrLeAntisymmetric(a[1..], b[1..]);
      assert a == [a[0]] + a[1..] && b == [b[0]] + b[1..];
    }
  }

  lemma {:induction false} StrLeTrans(a: string, b: string, c: string)
    requires StrLe(a, b) && StrLe(b, c)
    ensures StrLe(a, c)
    decreases |a|
  {
    if |a| > 0 && |b| > 0 && |c| > 0 && a[0] == b[0] == c[0] {
      StrLeTrans(a[1..], b[1..], c[1..]);
    }
  }
}
