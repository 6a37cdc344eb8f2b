/** The JavaScript string and number primitives the pages use, on `seq<char>`:
    `trim`, `toLowerCase`, `includes`, `padStart`, `slice(-n)`, `join`, `split`,
    `parseInt(_, 10)`, `Number.prototype.toString` on integers, and the default order
    of `Array.prototype.sort`, taken as lexicographic order on characters. */
module JsStrings {
  import opened Wrappers
  import Seqs

  // ---------------------------------------------------------------- trim

  /** ECMAScript WhiteSpace and LineTerminator: what `trim` and `parseInt` skip. */
  predicate IsJsSpace(c: char) {
    || c == ' ' || c == '\t' || c == '\n' || c == '\r'
    || c == '\U{000B}' || c == '\U{000C}' || c == '\U{00A0}' || c == '\U{1680}'
    || ('\U{2000}' <= c <= '\U{200A}')
    || c == '\U{2028}' || c == '\U{2029}' || c == '\U{202F}' || c == '\U{205F}'
    || c == '\U{3000}' || c == '\U{FEFF}'
  }

  /** `s.trimStart()`: `s` without its leading white space. */
  function TrimStart(s: string): (r: string)
    ensures |r| <= |s|
    ensures r != [] ==> !IsJsSpace(r[0])
  {
    if s != [] && IsJsSpace(s[0]) then TrimStart(s[1..]) else s
  }

  /** `s.trimEnd()`: `s` without its trailing white space. */
  function TrimEnd(s: string): (r: string)
    ensures |r| <= |s|
    ensures r != [] ==> !IsJsSpace(r[|r| - 1])
  {
    if s != [] && IsJsSpace(s[|s| - 1]) then TrimEnd(s[..|s| - 1]) else s
  }

  /** `s.trim()`: `s` without leading and trailing white space. */
  function Trim(s: string): (r: string)
    ensures |r| <= |s|
  {
    TrimEnd(TrimStart(s))
  }

  /** What `trimStart` drops is white space, and what it keeps is the rest of `s`. */
  lemma {:induction false} TrimStartSpec(s: string)
    ensures var r := TrimStart(s);
      && r == s[|s| - |r|..]
      && forall i :: 0 <= i < |s| - |r| ==> IsJsSpace(s[i])
  {
    if s != [] && IsJsSpace(s[0]) {
      TrimStartSpec(s[1..]);
    }
  }

  /** What `trimEnd` drops is white space, and what it keeps is the start of `s`. */
  lemma {:induction false} TrimEndSpec(s: string)
    ensures var r := TrimEnd(s);
      && r == s[..|r|]
      && forall i :: |r| <= i < |s| ==> IsJsSpace(s[i])
  {
    if s != [] && IsJsSpace(s[|s| - 1]) {
      TrimEndSpec(s[..|s| - 1]);
    }
  }

  /** `trim` keeps one contiguous piece of `s` that neither starts nor ends
      with white space, drops only white space around it, and gives the empty
      string exactly when `s` is all white space. */
  lemma TrimSpec(s: string)
    ensures exists i :: OccursAt(s, Trim(s), i)
    ensures Trim(s) != [] ==> !IsJsSpace(Trim(s)[0]) && !IsJsSpace(Trim(s)[|Trim(s)| - 1])
    ensures Trim(s) == [] <==> forall i :: 0 <= i < |s| ==> IsJsSpace(s[i])
  {
    var t := TrimStart(s);
    var r := TrimEnd(t);
    var k := |s| - |t|;
    TrimStartSpec(s);
    TrimEndSpec(t);
    assert r == s[k..k + |r|];
    assert OccursAt(s, r, k);
    assert Trim(s) == r;
    if r != [] {
      assert r[0] == t[0] == s[k];
      assert !IsJsSpace(r[|r| - 1]);
      assert !IsJsSpace(s[k]) && 0 <= k < |s|;
      assert !(forall i :: 0 <= i < |s| ==> IsJsSpace(s[i]));
    }
  }

  // ---------------------------------------------------------------- toLowerCase

  function LowerChar(c: char): char {
    if 'A' <= c <= 'Z' then (c as int + 32) as char else c
  }

  /** `s.toLowerCase()` on the ASCII letters. */
  function ToLower(s: string): (r: string)
    ensures |r| == |s|
    ensures forall i :: 0 <= i < |s| ==> r[i] == LowerChar(s[i])
  {
    seq(|s|, i requires 0 <= i < |s| => LowerChar(s[i]))
  }

  /** Lowering the case twice is lowering it once. */
  lemma ToLowerIdempotent(s: string)
    ensures ToLower(ToLower(s)) == ToLower(s)
  {
  }

  lemma ToLowerConcat(a: string, b: string)
    ensures ToLower(a + b) == ToLower(a) + ToLower(b)
  {
  }

  // ---------------------------------------------------------------- includes

  predicate StartsWith(s: string, p: string) {
    |p| <= |s| && s[..|p|] == p
  }

  /** `s.includes(q)`: `q` occurs in `s` (at the front, or further on). */
  predicate Includes(s: string, q: string)
    decreases |s|
  {
    StartsWith(s, q) || (s != [] && Includes(s[1..], q))
  }

  /** `q` occurs in `s` at position `i`. */
  predicate OccursAt(s: string, q: string, i: int) {
    0 <= i <= |s| - |q| && s[i..i + |q|] == q
  }

  /** `Includes` holds exactly when `q` occurs at some position of `s`. */
  lemma {:induction false} IncludesIff(s: string, q: string)
    ensures Includes(s, q) <==> exists i :: OccursAt(s, q, i)
  {
    if Includes(s, q) {
      if StartsWith(s, q) {
        assert OccursAt(s, q, 0);
      } else {
        IncludesIff(s[1..], q);
        var i :| OccursAt(s[1..], q, i);
        assert s[1..][i..i + |q|] == s[i + 1..i + 1 + |q|];
        assert OccursAt(s, q, i + 1);
      }
    }
    if exists i :: OccursAt(s, q, i) {
      var i :| OccursAt(s, q, i);
      IncludesAt(s, q, i);
    }
  }

  lemma {:induction false} IncludesAt(s: string, q: string, i: nat)
    requires OccursAt(s, q, i)
    ensures Includes(s, q)
    decreases i
  {
    if i > 0 {
      assert s[1..][i - 1..i - 1 + |q|] == s[i..i + |q|];
      IncludesAt(s[1..], q, i - 1);
    }
  }

  /** What occurs in a part occurs in the whole. */
  lemma IncludesInMiddle(a: string, b: string, c: string, q: string)
    requires Includes(b, q)
    ensures Includes(a + b + c, q)
  {
    IncludesIff(b, q);
    var i :| OccursAt(b, q, i);
    assert (a + b + c)[|a| + i..|a| + i + |q|] == b[i..i + |q|];
    IncludesAt(a + b + c, q, |a| + i);
  }

  /** Every string includes the empty string. */
  lemma IncludesEmpty(s: string)
    ensures Includes(s, "")
  {
    assert StartsWith(s, "");
  }

  /** Occurrence is transitive: what occurs in a part of `s` occurs in `s`. */
  lemma IncludesTransitive(s: string, t: string, q: string)
    requires Includes(s, t) && Includes(t, q)
    ensures Includes(s, q)
  {
    IncludesIff(s, t);
    IncludesIff(t, q);
    var i :| OccursAt(s, t, i);
    var j :| OccursAt(t, q, j);
    forall k | 0 <= k < |q|
      ensures s[i + j + k] == q[k]
    {
      assert q[k] == t[j..j + |q|][k] == t[j + k];
      assert t[j + k] == s[i..i + |t|][j + k];
    }
    assert s[i + j..i + j + |q|] == q;
    IncludesAt(s, q, i + j);
  }

  /** Lower-casing both sides keeps an occurrence. */
  lemma ToLowerIncludes(s: string, q: string)
    requires Includes(s, q)
    ensures Includes(ToLower(s), ToLower(q))
  {
    IncludesIff(s, q);
    var i :| OccursAt(s, q, i);
    assert ToLower(s)[i..i + |q|] == ToLower(q);
    IncludesAt(ToLower(s), ToLower(q), i);
  }

  // ---------------------------------------------------------------- padStart, slice, join

  /** `k` copies of `c`. */
  function Repeat(c: char, k: nat): (r: string)
    ensures |r| == k
  {
    if k == 0 then "" else [c] + Repeat(c, k - 1)
  }

  /** Every character of `Repeat(c, k)` is `c`. */
  lemma {:induction false} RepeatAt(c: char, k: nat)
    ensures forall i :: 0 <= i < k ==> Repeat(c, k)[i] == c
  {
    if k > 0 {
      RepeatAt(c, k - 1);
    }
  }

  /** `s.padStart(n, c)`. */
  function PadStart(s: string, n: nat, c: char): (r: string)
    ensures |r| == if |s| >= n then |s| else n
  {
    if |s| >= n then s else Repeat(c, n - |s|) + s
  }

  /** The padded text ends with the input, and every character before it is the
      fill character. */
  lemma PadStartContents(s: string, n: nat, c: char)
    ensures var r := PadStart(s, n, c);
      r[|r| - |s|..] == s && forall i :: 0 <= i < |r| - |s| ==> r[i] == c
  {
    if |s| < n {
      RepeatAt(c, n - |s|);
    }
  }

  lemma PadStartIdempotent(s: string, n: nat, c: char)
    ensures PadStart(PadStart(s, n, c), n, c) == PadStart(s, n, c)
  {
  }

  /** `s.slice(-n)`: the last `n` characters, or all of `s` when it is shorter. */
  function TakeLast(s: string, n: nat): (r: string)
    ensures |r| == if |s| < n then |s| else n
    ensures r == s[|s| - |r|..]
  {
    if |s| <= n then s else s[|s| - n..]
  }

  /** `parts.join(sep)`. */
  function Join(parts: seq<string>, sep: string): string
  {
    if |parts| == 0 then ""
    else if |parts| == 1 then parts[0]
    else parts[0] + sep + Join(parts[1..], sep)
  }

  /** Each part of a join occurs in the joined text. */
  lemma {:induction false} JoinIncludesPart(parts: seq<string>, sep: string, i: nat)
    requires i < |parts|
    ensures Includes(Join(parts, sep), parts[i])
  {
    if |parts| == 1 {
      assert StartsWith(parts[0], parts[0]);
    } else if i == 0 {
      assert StartsWith(parts[0], parts[0]);
      IncludesInMiddle("", parts[0], sep + Join(parts[1..], sep), parts[0]);
      assert "" + parts[0] + (sep + Join(parts[1..], sep)) == Join(parts, sep);
    } else {
      JoinIncludesPart(parts[1..], sep, i - 1);
      IncludesInMiddle(parts[0] + sep, Join(parts[1..], sep), "", parts[i]);
      assert parts[0] + sep + Join(parts[1..], sep) + "" == Join(parts, sep);
    }
  }

  // ---------------------------------------------------------------- split

  predicate FreeOf(s: string, delims: set<char>) {
    forall i :: 0 <= i < |s| ==> s[i] !in delims
  }

  /** `s.split(re)` for a regular expression `re` that matches one character of
      `delims`: the pieces between delimiters, empty pieces included. */
  function SplitOn(s: string, delims: set<char>): (parts: seq<string>)
    ensures |parts| >= 1
    ensures forall i :: 0 <= i < |parts| ==> FreeOf(parts[i], delims)
  {
    if s == [] then [""]
    else
      var rest := SplitOn(s[1..], delims);
      if s[0] in delims then [""] + rest
      else [[s[0]] + rest[0]] + rest[1..]
  }

  lemma {:induction false} SplitFree(a: string, delims: set<char>)
    requires FreeOf(a, delims)
    ensures SplitOn(a, delims) == [a]
  {
    if a != [] {
      SplitFree(a[1..], delims);
      assert [a[0]] + a[1..] == a;
    }
  }

  /** A delimiter-free piece followed by a delimiter is split off as one part. */
  lemma {:induction false} SplitAtDelimiter(a: string, d: char, rest: string, delims: set<char>)
    requires FreeOf(a, delims) && d in delims
    ensures SplitOn(a + [d] + rest, delims) == [a] + SplitOn(rest, delims)
  {
    if a == [] {
      assert a + [d] + rest == [d] + rest;
      assert ([d] + rest)[1..] == rest;
    } else {
      assert (a + [d] + rest)[1..] == a[1..] + [d] + rest;
      SplitAtDelimiter(a[1..], d, rest, delims);
      assert [a[0]] + a[1..] == a;
    }
  }

  /** Splitting `a d b d' c` with delimiter-free `a`, `b`, `c` gives the three pieces. */
  lemma SplitThree(a: string, d: char, b: string, d': char, c: string, delims: set<char>)
    requires FreeOf(a, delims) && FreeOf(b, delims) && FreeOf(c, delims)
    requires d in delims && d' in delims
    ensures SplitOn(a + [d] + b + [d'] + c, delims) == [a, b, c]
  {
    assert a + [d] + b + [d'] + c == a + [d] + (b + [d'] + c);
    SplitAtDelimiter(a, d, b + [d'] + c, delims);
    SplitAtDelimiter(b, d', c, delims);
    SplitFree(c, delims);
  }

  /** Joining delimiter-free parts with a delimiter and splitting again gives the
      parts back. */
  lemma {:induction false} SplitJoin(parts: seq<string>, d: char)
    requires |parts| >= 1
    requires forall i :: 0 <= i < |parts| ==> FreeOf(parts[i], {d})
    ensures SplitOn(Join(parts, [d]), {d}) == parts
  {
    if |parts| == 1 {
      SplitFree(parts[0], {d});
    } else {
      SplitJoin(parts[1..], d);
      SplitAtDelimiter(parts[0], d, Join(parts[1..], [d]), {d});
      assert [parts[0]] + parts[1..] == parts;
    }
  }

  /** Parts and a separator free of some characters join into text free of them. */
  lemma {:induction false} JoinFree(parts: seq<string>, sep: string, delims: set<char>)
    requires FreeOf(sep, delims)
    requires forall i :: 0 <= i < |parts| ==> FreeOf(parts[i], delims)
    ensures FreeOf(Join(parts, sep), delims)
  {
    if |parts| > 1 {
      JoinFree(parts[1..], sep, delims);
      var rest := Join(parts[1..], sep);
      var j := parts[0] + sep + rest;
      forall i | 0 <= i < |j|
        ensures j[i] !in delims
      {
        if i < |parts[0]| {
          assert j[i] == parts[0][i];
        } else if i < |parts[0]| + |sep| {
          assert j[i] == sep[i - |parts[0]|];
        } else {
          assert j[i] == rest[i - |parts[0]| - |sep|];
        }
      }
    }
  }

  /** Splitting on one character and joining with it gives the input back. */
  lemma {:induction false} JoinSplit(s: string, d: char)
    ensures Join(SplitOn(s, {d}), [d]) == s
  {
    if s != [] {
      JoinSplit(s[1..], d);
      var rest := SplitOn(s[1..], {d});
      if s[0] == d {
        assert Join([""] + rest, [d]) == "" + [d] + Join(rest, [d]);
      } else if |rest| == 1 {
        assert [s[0]] + rest[0] == s;
      } else {
        var parts := [[s[0]] + rest[0]] + rest[1..];
        assert parts[1..] == rest[1..];
        assert Join(rest, [d]) == rest[0] + [d] + Join(rest[1..], [d]);
        assert Join(parts, [d]) == [s[0]] + rest[0] + [d] + Join(rest[1..], [d]);
      }
    }
  }

  // ---------------------------------------------------------------- digits and numbers

  predicate IsDigit(c: char) {
    '0' <= c <= '9'
  }

  predicate AllDigits(s: string) {
    forall i :: 0 <= i < |s| ==> IsDigit(s[i])
  }

  function DigitChar(d: nat): (c: char)
    requires d < 10
    ensures IsDigit(c)
  {
    ('0' as int + d) as char
  }

  /** The base-10 value of a string of ASCII digits. */
  function DecimalValue(ds: string): nat
    requires AllDigits(ds)
  {
    if ds == [] then 0
    else DecimalValue(ds[..|ds| - 1]) * 10 + (ds[|ds| - 1] as int - '0' as int)
  }

  /** `n.toString()` for a non-negative integer: its shortest decimal numeral. */
  function NatToString(n: nat): (r: string)
    ensures |r| >= 1 && AllDigits(r)
    ensures |r| > 1 ==> r[0] != '0'
    decreases n
  {
    if n < 10 then [DigitChar(n)] else NatToString(n / 10) + [DigitChar(n % 10)]
  }

  /** `n.toString()` for an integer. */
  function IntToString(n: int): (r: string)
    ensures |r| >= 1
  {
    if n < 0 then "-" + NatToString(-n) else NatToString(n)
  }

  /** The numeral of `n` reads back as `n`. */
  lemma {:induction false} DecimalValueOfNatToString(n: nat)
    ensures DecimalValue(NatToString(n)) == n
    decreases n
  {
    if n >= 10 {
      DecimalValueOfNatToString(n / 10);
      var s := NatToString(n / 10) + [DigitChar(n % 10)];
      assert s[..|s| - 1] == NatToString(n / 10);
    }
  }

  /** Leading zeros do not change the value of a numeral. */
  lemma {:induction false} DecimalValueLeadingZero(ds: string)
    requires AllDigits(ds)
    ensures AllDigits("0" + ds) && DecimalValue("0" + ds) == DecimalValue(ds)
  {
    if ds != [] {
      DecimalValueLeadingZero(ds[..|ds| - 1]);
      assert ("0" + ds)[..|ds|] == "0" + ds[..|ds| - 1];
    }
  }

  /** `k` zero digits, the padding `padStart(n, "0")` adds. */
  function Zeros(k: nat): (z: string)
    ensures |z| == k && AllDigits(z)
  {
    RepeatAt('0', k);
    Repeat('0', k)
  }

  lemma {:induction false} DecimalValueLeadingZeros(k: nat, ds: string)
    requires AllDigits(ds)
    ensures AllDigits(Zeros(k) + ds)
    ensures DecimalValue(Zeros(k) + ds) == DecimalValue(ds)
  {
    if k > 0 {
      DecimalValueLeadingZeros(k - 1, ds);
      var rest := Zeros(k - 1) + ds;
      assert Zeros(k) + ds == "0" + rest;
      DecimalValueLeadingZero(rest);
      assert DecimalValue(Zeros(k) + ds) == DecimalValue("0" + rest);
    } else {
      assert Zeros(k) + ds == ds;
    }
  }

  /** `s.replace(/[^0-9]/g, "")`: the digits of `s`, in order. */
  function KeepDigits(s: string): (r: string)
    ensures AllDigits(r)
  {
    Seqs.Filter(s, IsDigit)
  }

  /** A character that is not a digit is dropped. */
  lemma KeepDigitsSkips(a: string, c: char, b: string)
    requires !IsDigit(c)
    ensures KeepDigits(a + [c] + b) == KeepDigits(a + b)
  {
    Seqs.FilterAppend(a + [c], b, IsDigit);
    Seqs.FilterSnoc(a, c, IsDigit);
    Seqs.FilterAppend(a, b, IsDigit);
  }

  /** Text made of digits is kept whole. */
  lemma KeepDigitsOfNumeral(ds: string)
    requires AllDigits(ds)
    ensures KeepDigits(ds) == ds
  {
    Seqs.FilterAll(ds, IsDigit);
  }

  /** Text without digits disappears. */
  lemma KeepDigitsAppendNone(a: string, b: string)
    requires forall i :: 0 <= i < |b| ==> !IsDigit(b[i])
    ensures KeepDigits(a + b) == KeepDigits(a)
  {
    Seqs.FilterAppend(a, b, IsDigit);
    Seqs.FilterNone(b, IsDigit);
  }

  /** The longest prefix of `s` made of digits. */
  function DigitPrefix(s: string): (r: string)
    ensures AllDigits(r) && |r| <= |s|
  {
    if s != [] && IsDigit(s[0]) then [s[0]] + DigitPrefix(s[1..]) else ""
  }

  /** `DigitPrefix` is a prefix of `s` and stops at the first non-digit. */
  lemma {:induction false} DigitPrefixSpec(s: string)
    ensures var r := DigitPrefix(s);
      r == s[..|r|] && (|r| < |s| ==> !IsDigit(s[|r|]))
  {
    if s != [] && IsDigit(s[0]) {
      DigitPrefixSpec(s[1..]);
    }
  }

  lemma {:induction false} DigitPrefixOfDigits(s: string, rest: string)
    requires AllDigits(s)
    requires rest == [] || !IsDigit(rest[0])
    ensures DigitPrefix(s + rest) == s
  {
    if s != [] {
      assert (s + rest)[1..] == s[1..] + rest;
      DigitPrefixOfDigits(s[1..], rest);
    }
  }

  /** `parseInt(s, 10)`: skip leading white space, read an optional sign and the
      longest run of digits after it; `None` (NaN) when there is no digit. */
  function JsParseInt(s: string): (r: Option<int>)
    ensures r.None? <==> DigitPrefix(SignFree(TrimStart(s))) == []
  {
    var t := TrimStart(s);
    var ds := DigitPrefix(SignFree(t));
    if ds == [] then None
    else if |t| > 0 && t[0] == '-' then Some(-(DecimalValue(ds) as int))
    else Some(DecimalValue(ds))
  }

  function SignFree(t: string): string {
    if |t| > 0 && (t[0] == '-' || t[0] == '+') then t[1..] else t
  }

  lemma TrimStartKeeps(s: string)
    requires s != [] && !IsJsSpace(s[0])
    ensures TrimStart(s) == s
  {
  }

  /** `parseInt` reads an unsigned numeral, with any leading zeros, as its value. */
  lemma ParseIntOfNumeral(ds: string)
    requires ds != [] && AllDigits(ds)
    ensures JsParseInt(ds) == Some(DecimalValue(ds))
  {
    TrimStartKeeps(ds);
    assert SignFree(ds) == ds;
    DigitPrefixOfDigits(ds, "");
    assert ds + "" == ds;
  }

  /** `parseInt` reads back what `toString` writes. */
  lemma ParseIntOfIntToString(n: int)
    ensures JsParseInt(IntToString(n)) == Some(n)
  {
    if n < 0 {
      var m: nat := -n;
      var s := IntToString(n);
      assert s == "-" + NatToString(m);
      TrimStartKeeps(s);
      assert SignFree(s) == NatToString(m);
      DigitPrefixOfDigits(NatToString(m), "");
      assert NatToString(m) + "" == NatToString(m);
      DecimalValueOfNatToString(m);
    } else {
      ParseIntOfNumeral(NatToString(n));
      DecimalValueOfNatToString(n);
    }
  }

  /** `parseInt` reads a zero-padded numeral as its value. */
  lemma ParseIntOfPadded(n: nat, width: nat)
    ensures JsParseInt(PadStart(NatToString(n), width, '0')) == Some(n)
  {
    var s := NatToString(n);
    var p := PadStart(s, width, '0');
    var k := |p| - |s|;
    assert p == Zeros(k) + s;
    DecimalValueLeadingZeros(k, s);
    ParseIntOfNumeral(p);
    DecimalValueOfNatToString(n);
  }

  // ---------------------------------------------------------------- ordering

  /** The default `sort` order: lexicographic on characters, a proper prefix first. */
  predicate StrLess(a: string, b: string) {
    if a == [] then b != []
    else if b == [] then false
    else if a[0] == b[0] then StrLess(a[1..], b[1..])
    else a[0] < b[0]
  }

  lemma {:induction false} StrLessIrreflexive(a: string)
    ensures !StrLess(a, a)
  {
    if a != [] {
      StrLessIrreflexive(a[1..]);
    }
  }

  lemma {:induction false} StrLessTransitive(a: string, b: string, c: string)
    requires StrLess(a, b) && StrLess(b, c)
    ensures StrLess(a, c)
  {
    if a != [] && b != [] && c != [] && a[0] == b[0] && b[0] == c[0] {
      StrLessTransitive(a[1..], b[1..], c[1..]);
    }
  }

  lemma {:induction false} StrLessTotal(a: string, b: string)
    requires a != b
    ensures StrLess(a, b) || StrLess(b, a)
  {
    if a != [] && b != [] && a[0] == b[0] {
      assert a == [a[0]] + a[1..] && b == [b[0]] + b[1..];
      StrLessTotal(a[1..], b[1..]);
    }
  }

  lemma {:induction false} StrLessAsymmetric(a: string, b: string)
    requires StrLess(a, b)
    ensures !StrLess(b, a)
  {
    if a != [] && b != [] && a[0] == b[0] {
      StrLessAsymmetric(a[1..], b[1..]);
    }
  }
}
