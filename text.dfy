/** String helpers the Go code gets from its standard library: `%d`
    formatting, `len` on a string (a byte count), `strings.SplitN(s, ":", 2)`
    and `filepath.Dir`. */
module Text {
  import opened Outcomes

  predicate IsDigit(c: char) {
    '0' <= c <= '9'
  }

  predicate AllDigits(s: string) {
    forall i :: 0 <= i < |s| ==> IsDigit(s[i])
  }

  function DigitChar(d: nat): (c: char)
    requires d < 10
    ensures IsDigit(c)
  {
    (48 + d) as char
  }

  function DigitValue(c: char): (d: nat)
    requires IsDigit(c)
    ensures d < 10 && DigitChar(d) == c
  {
    c as int - 48
  }

  /** The decimal digits of n, most significant first, without leading zeros
      (what `%d` prints for a non-negative int). */
  function NatToDecimal(n: nat): (s: string)
    ensures 1 <= |s| && AllDigits(s)
    ensures (s[0] == '0') == (n == 0)
    decreases n
  {
    if n < 10 then [DigitChar(n)] else NatToDecimal(n / 10) + [DigitChar(n % 10)]
  }

  /** Reads a string of decimal digits back as a number. */
  function DecimalToNat(s: string): nat
    requires AllDigits(s)
    decreases |s|
  {
    if s == [] then 0 else DecimalToNat(s[..|s| - 1]) * 10 + DigitValue(s[|s| - 1])
  }

  lemma {:induction false} DecimalRoundTrip(n: nat)
    ensures DecimalToNat(NatToDecimal(n)) == n
  {
    var s := NatToDecimal(n);
    if n >= 10 {
      assert s[..|s| - 1] == NatToDecimal(n / 10);
      assert s[|s| - 1] == DigitChar(n % 10);
      DecimalRoundTrip(n / 10);
    } else {
      assert s[..|s| - 1] == [];
    }
  }

  /** Go's `%d` for an int: a minus sign before the digits of a negative value. */
  function IntToDecimal(i: int): string {
    if i < 0 then "-" + NatToDecimal(-i) else NatToDecimal(i)
  }

  /** Two different ids never print the same: the basis of every per-user
      file name. */
  lemma IntToDecimalInjective(a: int, b: int)
    requires IntToDecimal(a) == IntToDecimal(b)
    ensures a == b
  {
    if a < 0 {
      assert IntToDecimal(b)[0] == '-';
      assert b < 0;
      assert NatToDecimal(-a) == IntToDecimal(a)[1..];
      assert NatToDecimal(-b) == IntToDecimal(b)[1..];
      DecimalRoundTrip(-a);
      DecimalRoundTrip(-b);
    } else {
      assert IsDigit(IntToDecimal(b)[0]);
      assert b >= 0;
      DecimalRoundTrip(a);
      DecimalRoundTrip(b);
    }
  }

  /** The number of bytes the UTF-8 encoding of c takes. */
  function Utf8Width(c: char): nat {
    if c as int < 0x80 then 1
    else if c as int < 0x800 then 2
    else if c as int < 0x10000 then 3
    else 4
  }

  /** Go's `len` on a string: its length in bytes, not in characters. */
  function ByteLen(s: string): (n: nat)
    ensures |s| <= n <= 4 * |s|
  {
    if s == [] then 0 else Utf8Width(s[0]) + ByteLen(s[1..])
  }

  /** `strings.SplitN(s, string(sep), 2)` when it yields two parts: the text
      before the first separator and everything after it; None when the
      separator does not occur (SplitN then yields a single part). */
  function SplitAtFirst(s: string, sep: char): (r: Option<(string, string)>)
    ensures r.None? <==> sep !in s
    ensures r.Some? ==> sep !in r.value.0 && s == r.value.0 + [sep] + r.value.1
  {
    if s == [] then None
    else if s[0] == sep then Some(([], s[1..]))
    else
      match SplitAtFirst(s[1..], sep)
      case None => None
      case Some(parts) => Some(([s[0]] + parts.0, parts.1))
  }

  /** Joining at a separator that the first part does not contain is undone
      by SplitAtFirst: the second part may itself contain the separator. */
  lemma {:induction false} SplitAtFirstOfJoin(u: string, p: string, sep: char)
    requires sep !in u
    ensures SplitAtFirst(u + [sep] + p, sep) == Some((u, p))
  {
    if u != [] {
      assert (u + [sep] + p)[1..] == u[1..] + [sep] + p;
      SplitAtFirstOfJoin(u[1..], p, sep);
      assert [u[0]] + u[1..] == u;
    }
  }

  /** The index of the last occurrence of c in s. */
  function LastIndexOf(s: string, c: char): (r: Option<nat>)
    ensures r.None? <==> c !in s
    ensures r.Some? ==> r.value < |s| && s[r.value] == c && c !in s[r.value + 1..]
  {
    if s == [] then None
    else if s[|s| - 1] == c then Some(|s| - 1)
    else
      var r := LastIndexOf(s[..|s| - 1], c);
      assert r.Some? ==> s[r.value + 1..] == s[..|s| - 1][r.value + 1..] + [s[|s| - 1]];
      r
  }

  /** Splits s at every separator: n separators give n + 1 pieces, empty
      ones included (`strings.Split`). */
  function SplitAll(s: string, sep: char): (parts: seq<string>)
    ensures |parts| >= 1
    ensures forall i | 0 <= i < |parts| :: sep !in parts[i]
    decreases |s|
  {
    match SplitAtFirst(s, sep)
    case None => [s]
    case Some((head, tail)) => [head] + SplitAll(tail, sep)
  }

  /** Puts the separator between consecutive pieces (`strings.Join`). */
  function JoinWith(parts: seq<string>, sep: char): string
    requires |parts| >= 1
    decreases |parts|
  {
    if |parts| == 1 then parts[0] else parts[0] + [sep] + JoinWith(parts[1..], sep)
  }

  /** Joining the pieces gives back the string that was split. */
  lemma {:induction false} JoinSplitAll(s: string, sep: char)
    ensures JoinWith(SplitAll(s, sep), sep) == s
    decreases |s|
  {
    match SplitAtFirst(s, sep)
    case None =>
    case Some((head, tail)) =>
      var parts := SplitAll(s, sep);
      assert parts[1..] == SplitAll(tail, sep);
      JoinSplitAll(tail, sep);
  }

  /** One element of the scan `filepath.Clean` makes over a path, on the
      elements kept so far: an empty or "." element vanishes; ".." removes
      the last kept name, or, with none left, is dropped at the root and kept
      in a relative path; any other name is kept. */
  function CleanStep(kept: seq<string>, e: string, rooted: bool): seq<string> {
    if e == "" || e == "." then kept
    else if e == ".." then
      if kept != [] && kept[|kept| - 1] != ".." then kept[..|kept| - 1]
      else if rooted then kept
      else kept + [".."]
    else kept + [e]
  }

  /** The scan over all elements, in order. */
  function CleanElements(es: seq<string>, rooted: bool): seq<string>
    decreases |es|
  {
    if es == [] then [] else CleanStep(CleanElements(es[..|es| - 1], rooted), es[|es| - 1], rooted)
  }

  /** The shape of what Clean keeps: names without separators that are
      neither empty nor ".", with ".." only at the front and only in a
      relative path. */
  ghost predicate CleanShape(kept: seq<string>, rooted: bool) {
    && (forall i | 0 <= i < |kept| :: kept[i] != "" && kept[i] != "." && '/' !in kept[i])
    && (forall i | 0 <= i < |kept| && kept[i] == ".." :: !rooted && forall j | 0 <= j < i :: kept[j] == "..")
  }

  /** Every scan ends in that shape: the cleaned path has no empty or "."
      element and climbs out of its start only in front. */
  lemma {:induction false} CleanElementsShape(es: seq<string>, rooted: bool)
    requires forall i | 0 <= i < |es| :: '/' !in es[i]
    ensures CleanShape(CleanElements(es, rooted), rooted)
    decreases |es|
  {
    if es != [] {
      var init := es[..|es| - 1];
      assert forall i | 0 <= i < |init| :: init[i] == es[i];
      CleanElementsShape(init, rooted);
      var kept := CleanElements(init, rooted);
      var e := es[|es| - 1];
      if e == ".." && !(kept != [] && kept[|kept| - 1] != "..") && !rooted {
        assert forall j | 0 <= j < |kept| :: kept[j] == "..";
      }
    }
  }

  /** `filepath.Clean` on a Unix path: the shortest equivalent path, "."
      for an empty result of a relative path. */
  function Clean(path: string): (r: string)
    ensures r != []
    ensures r[0] == '/' <==> path != [] && path[0] == '/'
  {
    if path == [] then "."
    else
      var rooted := path[0] == '/';
      var kept := CleanElements(SplitAll(path, '/'), rooted);
      CleanElementsShape(SplitAll(path, '/'), rooted);
      if kept == [] then (if rooted then "/" else ".")
      else
        var body := JoinWith(kept, '/');
        assert body[0] == kept[0][0] != '/' by { JoinStartsWithFirst(kept, '/'); }
        if rooted then "/" + body else body
  }

  lemma {:induction false} JoinStartsWithFirst(parts: seq<string>, sep: char)
    requires |parts| >= 1 && parts[0] != ""
    ensures JoinWith(parts, sep) != [] && JoinWith(parts, sep)[0] == parts[0][0]
  {
  }

  /** `filepath.Dir` on a Unix path: Clean of the path up to and including
      its last separator, "." when there is none. */
  function Dir(path: string): (r: string)
    ensures r != []
    ensures '/' !in path ==> r == "."
    ensures '/' in path ==> (r[0] == '/' <==> path[0] == '/')
  {
    match LastIndexOf(path, '/')
    case None => "."
    case Some(i) => Clean(path[..i + 1])
  }

  /** The last separator of a path that ends in a name without one. */
  lemma {:induction false} LastSeparator(p: string, name: string)
    requires '/' !in name
    ensures LastIndexOf(p + "/" + name, '/') == Some(|p|)
    decreases |name|
  {
    if name != [] {
      var s := p + "/" + name;
      assert s[..|s| - 1] == p + "/" + name[..|name| - 1];
      LastSeparator(p, name[..|name| - 1]);
    }
  }

  /** The directory of the file a path names, Clean of everything before its
      last separator. */
  lemma DirOfFile(p: string, name: string)
    requires '/' !in name
    ensures Dir(p + "/" + name) == Clean(p + "/")
  {
    LastSeparator(p, name);
    assert (p + "/" + name)[..|p| + 1] == p + "/";
  }

  /** Splitting a piece off the front. */
  lemma SplitAllCons(head: string, tail: string, sep: char)
    requires sep !in head
    ensures SplitAll(head + [sep] + tail, sep) == [head] + SplitAll(tail, sep)
  {
    SplitAtFirstOfJoin(head, tail, sep);
  }

  /** A path element that Clean keeps as it is. */
  predicate PlainName(n: string) {
    n != "" && n != "." && n != ".." && '/' !in n
  }

  /** A leading "./" is dropped: a store such as "./storages/whatsapp.db"
      lies in "storages". */
  lemma DirDropsDot(dir: string, name: string)
    requires PlainName(dir) && '/' !in name
    ensures Dir("./" + dir + "/" + name) == dir
  {
    assert "./" + dir + "/" + name == ("./" + dir) + "/" + name;
    DirOfFile("./" + dir, name);
    var p := "./" + dir + "/";
    assert p == "." + ['/'] + (dir + "/");
    SplitAllCons(".", dir + "/", '/');
    assert dir + "/" == dir + ['/'] + "";
    SplitAllCons(dir, "", '/');
    var es := [".", dir, ""];
    assert SplitAll(p, '/') == es;
    assert es[..2][..1][..0] == [];
    assert CleanElements(es[..2][..1], false) == [];
    assert CleanElements(es[..2], false) == [dir];
  }

  /** The pieces of "x//y/": the doubled separator leaves an empty one. */
  lemma SplitDoubleSeparator(x: string, y: string)
    requires PlainName(x) && PlainName(y)
    ensures SplitAll(x + "//" + y + "/", '/') == [x, "", y, ""]
  {
    assert x + "//" + y + "/" == x + ['/'] + ("/" + y + "/");
    SplitAllCons(x, "/" + y + "/", '/');
    assert "/" + y + "/" == "" + ['/'] + (y + "/");
    SplitAllCons("", y + "/", '/');
    assert y + "/" == y + ['/'] + "";
    SplitAllCons(y, "", '/');
  }

  /** Clean of a relative path that keeps at least one element: the kept
      elements joined by separators. */
  lemma CleanRelative(p: string, kept: seq<string>)
    requires p != [] && p[0] != '/'
    requires kept == CleanElements(SplitAll(p, '/'), false) && kept != []
    ensures Clean(p) == JoinWith(kept, '/')
  {
  }

  /** The elements of "x//y/" that Clean keeps. */
  lemma CleanElementsDoubleSeparator(x: string, y: string)
    requires PlainName(x) && PlainName(y)
    ensures CleanElements([x, "", y, ""], false) == [x, y]
  {
    var es := [x, "", y, ""];
    assert es[..3][..2][..1][..0] == [];
    assert CleanElements(es[..3][..2][..1], false) == [x];
    assert CleanElements(es[..3][..2], false) == [x];
    assert CleanElements(es[..3], false) == [x, y];
  }

  /** Repeated separators collapse: a file under "x//y" lies in "x/y". */
  lemma DirCollapsesSeparators(x: string, y: string, name: string)
    requires PlainName(x) && PlainName(y) && '/' !in name
    ensures Dir(x + "//" + y + "/" + name) == x + "/" + y
  {
    var d := x + "//" + y;
    assert x + "//" + y + "/" + name == d + "/" + name;
    DirOfFile(d, name);
    var p := d + "/";
    assert p == x + "//" + y + "/";
    SplitDoubleSeparator(x, y);
    CleanElementsDoubleSeparator(x, y);
    CleanRelative(p, [x, y]);
    assert [x, y][1..] == [y];
  }
}
