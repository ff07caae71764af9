/** dtoa, isdigitstr and the descriptor loop that appends numbers to a path. */
module Decimal {
  import opened Common

  const LLONG_MIN: int := -0x8000_0000_0000_0000
  const LLONG_MAX: int := 0x7fff_ffff_ffff_ffff

  predicate IsLongLong(n: int) { LLONG_MIN <= n <= LLONG_MAX }

  // Negation of a long long: the least value has no counterpart and stays as it is.
  function Negate(n: int): int { if n == LLONG_MIN then n else -n }

  // Division and remainder round towards zero.
  function Quot(a: int, b: nat): int
    requires b > 0
  {
    if a >= 0 then a / b else -((-a) / b)
  }

  function Rem(a: int, b: nat): int
    requires b > 0
  {
    if a >= 0 then a % b else -((-a) % b)
  }

  // ------------------------------------------------------------------ specification

  // The character that the digit loop stores for the last digit of `n`.
  function LastChar(n: int): char { (Rem(n, 10) + 48) as char }

  /** The characters of the digit loop, last digit first. */
  function DigitsBackwards(n: int): (s: string)
    decreases if n < 0 then -n else n
  {
    if n == 0 then "" else [LastChar(n)] + DigitsBackwards(Quot(n, 10))
  }

  function Reverse(s: string): string {
    if s == "" then "" else Reverse(s[1..]) + [s[0]]
  }

  lemma {:induction false} ReverseAt(s: string)
    ensures |Reverse(s)| == |s|
    ensures forall i :: 0 <= i < |s| ==> Reverse(s)[i] == s[|s| - 1 - i]
  {
    if s != "" {
      ReverseAt(s[1..]);
    }
  }

  /** What dtoa leaves in its buffer. */
  function Decimal(n: int): string {
    if n == 0 then "0"
    else if n < 0 then "-" + Reverse(DigitsBackwards(Negate(n)))
    else Reverse(DigitsBackwards(n))
  }

  predicate IsDigit(c: char) { '0' <= c <= '9' }

  predicate AllDigits(s: string) { forall i :: 0 <= i < |s| ==> IsDigit(s[i]) }

  function DigitValue(c: char): int { c as int - 48 }

  /** The value of a string of digits. */
  function ParseDigits(s: string): int {
    if s == "" then 0 else 10 * ParseDigits(s[..|s| - 1]) + DigitValue(s[|s| - 1])
  }

  /** Reading a decimal number back: an optional minus sign and at least one digit. */
  function Parse(s: string): Option<int> {
    var negative := s != "" && s[0] == '-';
    var digits := if negative then s[1..] else s;
    if digits == "" || !AllDigits(digits) then None
    else Some(if negative then -ParseDigits(digits) else ParseDigits(digits))
  }

  // ------------------------------------------------------------------ round trip

  // For a positive number the characters are digits, the first of them not zero, and they mean the number.
  lemma {:induction false} DigitsMean(n: int)
    requires n > 0
    ensures var s := Reverse(DigitsBackwards(n));
      && s != "" && s[0] != '0'
      && AllDigits(s)
      && ParseDigits(s) == n
    decreases n
  {
    var d, s := DigitsBackwards(n), Reverse(DigitsBackwards(n));
    var t := Reverse(DigitsBackwards(n / 10));
    assert d[1..] == DigitsBackwards(n / 10) && s == t + [LastChar(n)];
    assert s[..|s| - 1] == t;
    if n >= 10 {
      DigitsMean(n / 10);
    }
  }

  lemma {:induction false} DigitCount(n: int, k: nat)
    requires 0 <= n < Power10(k)
    ensures |DigitsBackwards(n)| <= k
    decreases k
  {
    if n > 0 {
      DigitCount(n / 10, k - 1);
    }
  }

  function Power10(k: nat): nat { if k == 0 then 1 else 10 * Power10(k - 1) }

  lemma Power19()
    ensures Power10(19) == 10000000000000000000
  {
    assert Power10(5) == 100000;
    assert Power10(10) == 10000000000;
    assert Power10(15) == 1000000000000000;
  }

  // A number that stays negative leaves characters below '0'.
  lemma NegativeUnreadable(m: int)
    requires m < 0 && Rem(m, 10) != 0
    ensures Parse("-" + Reverse(DigitsBackwards(m))) == None
  {
    var r := Reverse(DigitsBackwards(m));
    ReverseAt(DigitsBackwards(m));
    assert LastChar(m) < '0';
    assert r[|r| - 1] == LastChar(m);
    assert !AllDigits(r) && ("-" + r)[1..] == r;
  }

  lemma DigitsReadable(s: string)
    requires s != "" && AllDigits(s)
    ensures Parse(s) == Some(ParseDigits(s)) && Parse("-" + s) == Some(-ParseDigits(s))
  {
    assert ("-" + s)[1..] == s;
    assert IsDigit(s[0]);
  }

  // The text of a number with an absolute value.
  lemma DecimalForm(n: int) returns (s: string)
    requires n != 0 && n != LLONG_MIN
    ensures Decimal(n) == if n < 0 then "-" + s else s
    ensures s == Reverse(DigitsBackwards(if n < 0 then -n else n))
    ensures s != "" && s[0] != '0' && AllDigits(s) && ParseDigits(s) == if n < 0 then -n else n
  {
    var m := if n < 0 then -n else n;
    s := Reverse(DigitsBackwards(m));
    DigitsMean(m);
  }

  lemma ZeroReadable()
    ensures Parse("0") == Some(0)
  {
    var s := "0";
    assert AllDigits(s) && s[..0] == "";
    assert ParseDigits(s) == 10 * ParseDigits(s[..0]) + DigitValue('0');
  }

  /** Round trip: of all 64-bit values exactly the least one does not read back. */
  lemma RoundTrip(n: int)
    requires IsLongLong(n)
    ensures Parse(Decimal(n)) == Some(n) <==> n != LLONG_MIN
  {
    if n == LLONG_MIN {
      NegativeUnreadable(n);
    } else if n != 0 {
      var s := DecimalForm(n);
      DigitsReadable(s);
    } else {
      ZeroReadable();
    }
  }

  // ------------------------------------------------------------------ isdigitstr

  predicate IsSpace(c: char) { c == ' ' || '\t' <= c <= '\r' }

  function SkipSpace(s: string): string {
    if s != "" && IsSpace(s[0]) then SkipSpace(s[1..]) else s
  }

  function SkipDigits(s: string): string {
    if s != "" && IsDigit(s[0]) then SkipDigits(s[1..]) else s
  }

  // What strtoll with base 10 leaves unread: everything, if no digit follows the sign.
  function StrtollRest(s: string): string {
    var t := SkipSpace(s);
    var u := if t != "" && (t[0] == '-' || t[0] == '+') then t[1..] else t;
    if u != "" && IsDigit(u[0]) then SkipDigits(u) else s
  }

  predicate IsDigitStr(s: string) {
    s != "" && StrtollRest(s) == ""
  }

  lemma {:induction false} SkipAllDigits(s: string)
    ensures SkipDigits(s) == "" <==> AllDigits(s)
  {
    if s != "" {
      SkipAllDigits(s[1..]);
      assert AllDigits(s) <==> IsDigit(s[0]) && AllDigits(s[1..]) by {
        if IsDigit(s[0]) && AllDigits(s[1..]) {
          forall i | 0 <= i < |s| ensures IsDigit(s[i]) {
            assert s[i] == if i == 0 then s[0] else s[1..][i - 1];
          }
        }
      }
    }
  }

  // White space (the space and the codes from 9 to 13), then perhaps a sign.
  predicate Lead(s: string, i: nat, j: nat) {
    && i <= j < |s| && (forall k :: 0 <= k < i ==> s[k] == ' ' || 9 <= s[k] as int <= 13)
    && (j == i || (j == i + 1 && (s[i] == '-' || s[i] == '+')))
  }

  /** What isdigitstr is for: white space, an optional sign, and at least one digit up to the end. */
  ghost predicate Numeral(s: string) {
    exists i: nat, j: nat :: Lead(s, i, j) && forall k :: j <= k < |s| ==> 48 <= s[k] as int <= 57
  }

  lemma {:induction false} SkipSpaceIs(s: string) returns (i: nat)
    ensures i <= |s| && SkipSpace(s) == s[i..] && (i < |s| ==> !IsSpace(s[i]))
    ensures forall k :: 0 <= k < i ==> IsSpace(s[k])
  {
    if s != "" && IsSpace(s[0]) {
      i := SkipSpaceIs(s[1..]);
      i := i + 1;
      forall k | 0 <= k < i ensures IsSpace(s[k]) {
        if k > 0 { assert s[k] == s[1..][k - 1]; }
      }
    } else {
      i := 0;
    }
  }

  /** isdigitstr accepts exactly the numerals. */
  lemma AcceptsNumerals(s: string)
    ensures IsDigitStr(s) <==> Numeral(s)
  {
    var i := SkipSpaceIs(s);
    var signed := i < |s| && (s[i] == '-' || s[i] == '+');
    var j := if signed then i + 1 else i;
    assert (if signed then s[i..][1..] else s[i..]) == s[j..];
    SkipAllDigits(s[j..]);
    if IsDigitStr(s) {
      assert Lead(s, i, j);
      forall k | j <= k < |s| ensures 48 <= s[k] as int <= 57 {
        assert s[k] == s[j..][k - j];
      }
    }
    if Numeral(s) {
      var a: nat, b: nat :| Lead(s, a, b) && forall k :: b <= k < |s| ==> 48 <= s[k] as int <= 57;
      assert IsDigit(s[b]);
      assert !IsSpace(s[a]);
      assert a == i && b == j;
    }
  }

  lemma AcceptsDigits(s: string)
    requires s != "" && AllDigits(s)
    ensures IsDigitStr(s) && IsDigitStr("-" + s)
  {
    assert IsDigit(s[0]) && ("-" + s)[1..] == s;
    SkipAllDigits(s);
  }

  // A number that stays negative starts with such a character, too.
  lemma {:induction false} NegativeFirst(m: int)
    requires m < 0
    ensures Reverse(DigitsBackwards(m)) != "" && Reverse(DigitsBackwards(m))[0] < '0'
    decreases -m
  {
    var q := Quot(m, 10);
    assert DigitsBackwards(m)[1..] == DigitsBackwards(q);
    if q < 0 {
      NegativeFirst(q);
    }
  }

  /** isdigitstr accepts what dtoa writes, again for all values but the least one. */
  lemma AcceptsDecimal(n: int)
    requires IsLongLong(n)
    ensures IsDigitStr(Decimal(n)) <==> n != LLONG_MIN
  {
    if n == 0 {
      AcceptsDigits("0");
    } else if n == LLONG_MIN {
      NegativeFirst(n);
      RefusesText(Reverse(DigitsBackwards(n)));
    } else {
      var s := DecimalForm(n);
      AcceptsDigits(s);
    }
  }

  lemma RefusesText(s: string)
    requires s != "" && !IsDigit(s[0])
    ensures !IsDigitStr("-" + s)
  {
    assert ("-" + s)[1..] == s;
  }

  // ------------------------------------------------------------------ dtoa in place

  lemma {:induction false} BackwardsFits(n: int)
    requires IsLongLong(n)
    ensures |DigitsBackwards(n)| <= 19
  {
    Power19();
    if n >= 0 {
      DigitCount(n, 19);
    } else {
      NegativeDigits(-n);
      DigitCount(-n, 19);
    }
  }

  lemma {:induction false} NegativeDigits(n: int)
    requires n >= 0
    ensures |DigitsBackwards(-n)| == |DigitsBackwards(n)|
    decreases n
  {
    if n > 0 {
      assert Quot(-n, 10) == -(n / 10);
      NegativeDigits(n / 10);
    }
  }

  /** No leading zero, and at most twenty characters. */
  lemma Canonical(n: int)
    requires IsLongLong(n)
    ensures |Decimal(n)| <= 20
    ensures n == 0 || Decimal(n)[if n < 0 then 1 else 0] != '0'
  {
    var m := if n < 0 then Negate(n) else n;
    BackwardsFits(m);
    ReverseAt(DigitsBackwards(m));
    if n == LLONG_MIN {
      NegativeFirst(n);
    } else if n != 0 {
      var s := DecimalForm(n);
    }
  }

  lemma OneDigit(prefix: string, m: int)
    requires m != 0
    ensures prefix + DigitsBackwards(m) == prefix + [LastChar(m)] + DigitsBackwards(Quot(m, 10))
    ensures |DigitsBackwards(m)| == 1 + |DigitsBackwards(Quot(m, 10))|
    ensures if m < 0 then m < Quot(m, 10) <= 0 else 0 <= Quot(m, 10) < m
  {
    assert DigitsBackwards(m) == [LastChar(m)] + DigitsBackwards(Quot(m, 10));
  }

  // The digit loop: appends the characters of `n`, last digit first.
  method StoreDigits(buf: array<char>, start: nat, n: int) returns (end: nat)
    requires start + |DigitsBackwards(n)| <= buf.Length
    modifies buf
    ensures end == start + |DigitsBackwards(n)|
    ensures buf[..end] == old(buf[..start]) + DigitsBackwards(n)
  {
    var m := n;
    end := start;
    while m != 0
      invariant start <= end && end + |DigitsBackwards(m)| == start + |DigitsBackwards(n)|
      invariant buf[..end] + DigitsBackwards(m) == old(buf[..start]) + DigitsBackwards(n)
      decreases if m < 0 then -m else m
    {
      ghost var before := buf[..end];
      OneDigit(before, m);
      buf[end] := LastChar(m);
      end := end + 1;
      assert buf[..end] == before + [LastChar(m)];
      m := Quot(m, 10);
    }
    assert buf[..end] + "" == buf[..end];
  }

  // `now` is `was` with the part from `start` to `end` turned around, except between `l` and `r`.
  predicate Turned(was: string, now: string, start: int, end: int, l: int, r: int) {
    && 0 <= start <= end && start <= l <= r + 2 && r < end <= |was| == |now| && l + r == start + end - 1
    && forall i {:trigger now[i]} :: 0 <= i < |now| ==>
         now[i] == if start <= i < l || r < i < end then was[start + end - 1 - i] else was[i]
  }

  lemma TurnOne(was: string, now: string, start: int, end: int, l: int, r: int)
    requires Turned(was, now, start, end, l, r) && l < r
    ensures Turned(was, now[l := now[r]][r := now[l]], start, end, l + 1, r - 1)
  {
  }

  lemma TurnedIsReverse(was: string, now: string, start: int, end: int, l: int, r: int)
    requires Turned(was, now, start, end, l, r) && l >= r
    ensures start <= end && now[..start] == was[..start] && now[start..end] == Reverse(was[start..end])
  {
    ReverseAt(was[start..end]);
    forall i | 0 <= i < end - start
      ensures now[start..end][i] == Reverse(was[start..end])[i]
    {
      assert now[start..end][i] == now[start + i];
      assert was[start..end][end - start - 1 - i] == was[end - 1 - i];
    }
  }

  // The reversal loop between the pointers `l` and `r`.
  method ReverseInPlace(buf: array<char>, start: nat, end: nat)
    requires start <= end <= buf.Length
    modifies buf
    ensures buf[..start] == old(buf[..start]) && buf[start..end] == Reverse(old(buf[start..end]))
  {
    var l, r := start, end - 1;
    ghost var was := buf[..];
    while l < r
      invariant Turned(was, buf[..], start, end, l, r)
    {
      TurnOne(was, buf[..], start, end, l, r);
      ghost var turned := buf[..][l := buf[r]][r := buf[l]];
      buf[l], buf[r] := buf[r], buf[l];
      assert buf[..] == turned;
      l, r := l + 1, r - 1;
    }
    TurnedIsReverse(was, buf[..], start, end, l, r);
    assert was[..start] == old(buf[..start]) && was[start..end] == old(buf[start..end]);
    assert buf[..][..start] == buf[..start] && buf[..][start..end] == buf[start..end];
  }

  /** dtoa: the digit loop and the reversal leave the decimal text of `n` in the buffer. */
  method Dtoa(n: int, buf: array<char>) returns (end: nat)
    requires IsLongLong(n) && buf.Length == 100
    modifies buf
    ensures end <= 20 && buf[..end] == Decimal(n) && buf[end] == '\0'
  {
    var sign := n < 0;
    if n == 0 {
      buf[0] := '0';
      end := 1;
    } else {
      var m, start := n, 0;
      if sign {
        m := Negate(n);
        buf[0] := '-';
        start := 1;
      }
      BackwardsFits(m);
      end := StoreDigits(buf, start, m);
    }
    var l := if sign then 1 else 0;
    ghost var prefix := buf[..l];
    ReverseInPlace(buf, l, end);
    buf[end] := '\0';
    assert buf[..end] == prefix + buf[l..end];
  }

  // ------------------------------------------------------------------ the descriptor loop

  // Does the name of descriptor `fd` link to `target`? `links` is what readlink finds.
  predicate Hit(path: string, links: map<string, string>, target: string, fd: nat) {
    path + Decimal(fd) in links && links[path + Decimal(fd)] == target
  }

  function HitAt(path: string, links: map<string, string>, target: string): nat -> bool {
    (fd: nat) => Hit(path, links, target, fd)
  }

  /** The first number from `from` on, below `count`, that hits. */
  function FirstMatch(hit: nat -> bool, from: nat, count: nat): Option<nat>
    requires from <= count
    decreases count - from
  {
    if from == count then None else if hit(from) then Some(from) else FirstMatch(hit, from + 1, count)
  }

  lemma {:induction false} FirstMatchIsFirst(hit: nat -> bool, from: nat, count: nat)
    requires from <= count
    ensures var r := FirstMatch(hit, from, count);
      match r
      case Some(fd) => from <= fd < count && hit(fd) && forall i :: from <= i < fd ==> !hit(i)
      case None => forall i :: from <= i < count ==> !hit(i)
    decreases count - from
  {
    if from < count && !hit(from) {
      FirstMatchIsFirst(hit, from + 1, count);
    }
  }

  /** The names under which the first `count` descriptors are looked up. */
  function Names(path: string, count: nat): seq<string> {
    if count == 0 then [] else Names(path, count - 1) + [path + Decimal(count - 1)]
  }

  /** `name` is the path followed by a text that reads back as the number. */
  predicate IsName(path: string, name: string, fd: int) {
    path <= name && Parse(name[|path|..]) == Some(fd)
  }

  lemma OneName(path: string, fd: nat)
    requires fd <= LLONG_MAX
    ensures IsName(path, path + Decimal(fd), fd)
  {
    RoundTrip(fd);
    assert (path + Decimal(fd))[|path|..] == Decimal(fd);
  }

  lemma {:induction false} NameAt(path: string, count: nat, i: nat)
    requires i < count
    ensures |Names(path, count)| == count && Names(path, count)[i] == path + Decimal(i)
  {
    if count > 1 {
      NameAt(path, count - 1, if i < count - 1 then i else 0);
    }
  }

  lemma NamesRead(path: string, count: nat)
    requires count <= LLONG_MAX
    ensures |Names(path, count)| == count
    ensures forall i :: 0 <= i < count ==> IsName(path, Names(path, count)[i], i)
  {
    if count > 0 { NameAt(path, count, 0); }
    forall i | 0 <= i < count
      ensures IsName(path, Names(path, count)[i], i)
    {
      NameAt(path, count, i);
      OneName(path, i);
    }
  }

  // strcat of the number.
  method Append(path: string, fd: nat, buf: array<char>) returns (path': string, s: string)
    requires buf.Length == 100 && fd <= LLONG_MAX
    modifies buf
    ensures s == Decimal(fd) && path' == path + s
  {
    var end := Dtoa(fd, buf);
    s := buf[..end];
    path' := path + s;
  }

  // Cutting off strlen(s) characters undoes the append of `s`.
  method CutBack(path': string, s: string, ghost path: string) returns (cut: string)
    requires path' == path + s
    ensures cut == path
  {
    cut := path'[..|path'| - |s|];
  }

  // Does this name link to `target`?
  predicate LinksTo(links: map<string, string>, name: string, target: string) { name in links && links[name] == target }

  // The names up to the first hit, for any sequence of names and hits.
  lemma FirstName(names: seq<string>, links: map<string, string>, target: string, hit: nat -> bool,
                  count: nat, found: Option<nat>)
    requires found == FirstMatch(hit, 0, count) && |names| == if found.Some? then found.value + 1 else count
    requires forall i :: 0 <= i < |names| ==> (LinksTo(links, names[i], target) <==> hit(i))
    ensures |names| <= count
    ensures forall i :: 0 <= i < |names| ==> (LinksTo(links, names[i], target) <==> found == Some(i))
  {
    FirstMatchIsFirst(hit, 0, count);
  }

  lemma NamesHit(path: string, links: map<string, string>, target: string, hit: nat -> bool, n: nat)
    requires forall fd: nat :: hit(fd) <==> Hit(path, links, target, fd)
    ensures |Names(path, n)| == n
    ensures forall i :: 0 <= i < n ==> (LinksTo(links, Names(path, n)[i], target) <==> hit(i))
  {
    if n > 0 { NameAt(path, n, 0); }
    forall i | 0 <= i < n
      ensures LinksTo(links, Names(path, n)[i], target) <==> hit(i)
    {
      NameAt(path, n, i);
    }
  }

  // Different numbers have different names.
  lemma NamesDiffer(path: string, looked: seq<string>)
    requires forall i :: 0 <= i < |looked| ==> IsName(path, looked[i], i)
    ensures forall i, j :: 0 <= i < j < |looked| ==> looked[i] != looked[j]
  {
    forall i, j | 0 <= i < j < |looked|
      ensures looked[i] != looked[j]
    {
      assert IsName(path, looked[i], i) && IsName(path, looked[j], j);
    }
  }

  // The loop itself; `hit` says which numbers have a name that links to the target.
  method ScanLoop(path: string, links: map<string, string>, target: string, count: nat, buf: array<char>,
                  ghost hit: nat -> bool)
      returns (found: Option<nat>, looked: seq<string>, path': string)
    requires buf.Length == 100 && count <= LLONG_MAX
    requires forall fd: nat :: hit(fd) <==> Hit(path, links, target, fd)
    modifies buf
    ensures found == FirstMatch(hit, 0, count)
    ensures looked == Names(path, if found.Some? then found.value + 1 else count)
    ensures path' == if found.Some? then path + Decimal(found.value) else path
  {
    found, looked, path' := None, [], path;
    var fd := 0;
    while fd < count && found == None
      invariant 0 <= fd <= count
      invariant found == None ==> path' == path && looked == Names(path, fd)
      invariant found == None ==> FirstMatch(hit, 0, count) == FirstMatch(hit, fd, count)
      invariant found != None ==> found == Some(fd) && found == FirstMatch(hit, 0, count)
      invariant found != None ==> path' == path + Decimal(fd) && looked == Names(path, fd + 1)
      decreases count - fd, found == None
    {
      var s;
      path', s := Append(path', fd, buf);
      looked := looked + [path'];
      if path' in links && links[path'] == target {
        found := Some(fd);
      } else {
        path' := CutBack(path', s, path);
        fd := fd + 1;
      }
    }
  }

  lemma LoopFacts(path: string, links: map<string, string>, target: string, count: nat, hit: nat -> bool,
                  found: Option<nat>, looked: seq<string>)
    requires count <= LLONG_MAX && forall fd: nat :: hit(fd) <==> Hit(path, links, target, fd)
    requires found == FirstMatch(hit, 0, count)
    requires looked == Names(path, if found.Some? then found.value + 1 else count)
    ensures |looked| == (if found.Some? then found.value + 1 else count) <= count
    ensures forall i :: 0 <= i < |looked| ==> IsName(path, looked[i], i)
    ensures forall i :: 0 <= i < |looked| ==> (LinksTo(links, looked[i], target) <==> found == Some(i))
  {
    var n := if found.Some? then found.value + 1 else count;
    FirstMatchIsFirst(hit, 0, count);
    NamesRead(path, n);
    NamesHit(path, links, target, hit, n);
    FirstName(looked, links, target, hit, count, found);
  }

  /** The loop over the descriptors of one process: `path` ends with a slash, `count` is
      FOPEN_MAX, and `links` is what readlink finds under which name. Every miss restores
      the path, so each descriptor is looked up under its own name: the path followed by
      its number. The loop ends at the first name that links to the target. */
  method ScanDescriptors(path: string, links: map<string, string>, target: string, count: nat, buf: array<char>)
      returns (found: Option<nat>, looked: seq<string>, path': string)
    requires buf.Length == 100 && count <= LLONG_MAX
    modifies buf
    ensures |looked| == (if found.Some? then found.value + 1 else count) <= count
    ensures forall i :: 0 <= i < |looked| ==> IsName(path, looked[i], i)
    ensures forall i, j :: 0 <= i < j < |looked| ==> looked[i] != looked[j]
    ensures forall i :: 0 <= i < |looked| ==> (LinksTo(links, looked[i], target) <==> found == Some(i))
    ensures if found.Some? then IsName(path, path', found.value) else path' == path
  {
    ghost var hit := HitAt(path, links, target);
    found, looked, path' := ScanLoop(path, links, target, count, buf, hit);
    LoopFacts(path, links, target, count, hit, found, looked);
    NamesDiffer(path, looked);
    if found.Some? { OneName(path, found.value); }
  }
}
