/** The string functions the backend takes from Go's standard library, on ASCII
    case and on the blanks of Go's unicode.IsSpace that are single Latin-1 characters. */
module Text {

  datatype Option<+T> = None | Some(value: T)

  datatype Result<+T, +E> = Ok(value: T) | Err(error: E)

  predicate IsSpace(c: char) {
    c == ' ' || '\t' <= c <= '\r' || c == '\U{0085}' || c == '\U{00A0}'
  }

  function TrimLeft(s: string): string {
    if s != "" && IsSpace(s[0]) then TrimLeft(s[1..]) else s
  }

  function TrimRight(s: string): string {
    if s != "" && IsSpace(s[|s| - 1]) then TrimRight(s[..|s| - 1]) else s
  }

  /** strings.TrimSpace */
  function Trim(s: string): string {
    TrimRight(TrimLeft(s))
  }

  /** No blank at either end: what TrimSpace leaves alone. */
  predicate Trimmed(s: string) {
    s == "" || (!IsSpace(s[0]) && !IsSpace(s[|s| - 1]))
  }

  predicate Blank(s: string) {
    Trim(s) == ""
  }

  function LowerChar(c: char): (r: char) {
    if 'A' <= c <= 'Z' then c - 'A' + 'a' else c
  }

  function UpperChar(c: char): (r: char) {
    if 'a' <= c <= 'z' then c - 'a' + 'A' else c
  }

  /** strings.ToLower */
  function Lower(s: string): (r: string)
    ensures |r| == |s|
  {
    seq(|s|, i requires 0 <= i < |s| => LowerChar(s[i]))
  }

  /** strings.ToUpper */
  function Upper(s: string): (r: string)
    ensures |r| == |s|
  {
    seq(|s|, i requires 0 <= i < |s| => UpperChar(s[i]))
  }

  /** strings.HasSuffix */
  predicate HasSuffix(s: string, suffix: string) {
    |suffix| <= |s| && s[|s| - |suffix|..] == suffix
  }

  /** strings.TrimSuffix */
  function TrimSuffix(s: string, suffix: string): string {
    if HasSuffix(s, suffix) then s[..|s| - |suffix|] else s
  }

  /** strings.Contains */
  predicate Contains(s: string, part: string) {
    part <= s || (s != "" && Contains(s[1..], part))
  }

  /** Byte-wise string order, the `<=` of Go strings. */
  predicate AtMost(a: string, b: string) {
    a == "" || (b != "" && (a[0] < b[0] || (a[0] == b[0] && AtMost(a[1..], b[1..]))))
  }

  predicate Less(a: string, b: string) {
    AtMost(a, b) && a != b
  }

  lemma TrimLeftEnd(s: string)
    ensures TrimLeft(s) == "" || (!IsSpace(TrimLeft(s)[0]) && TrimLeft(s)[|TrimLeft(s)| - 1] == s[|s| - 1])
    ensures |TrimLeft(s)| <= |s|
  {}

  lemma TrimRightEnd(s: string)
    ensures TrimRight(s) == "" || (!IsSpace(TrimRight(s)[|TrimRight(s)| - 1]) && TrimRight(s)[0] == s[0])
    ensures |TrimRight(s)| <= |s|
  {}

  /** TrimSpace removes every blank at the ends, and nothing from a string without any. */
  lemma TrimIsTrimmed(s: string)
    ensures Trimmed(Trim(s))
    ensures Trimmed(s) <==> Trim(s) == s
    ensures Trim(Trim(s)) == Trim(s)
    ensures |Trim(s)| <= |s|
  {
    TrimLeftEnd(s);
    TrimRightEnd(TrimLeft(s));
    if Trimmed(s) && s != "" {
      assert TrimLeft(s) == s;
    }
  }

  lemma LowerTrimLeft(s: string)
    ensures Lower(TrimLeft(s)) == TrimLeft(Lower(s))
  {
    if s != "" && IsSpace(s[0]) {
      LowerTrimLeft(s[1..]);
      assert Lower(s)[1..] == Lower(s[1..]);
    }
  }

  lemma LowerTrimRight(s: string)
    ensures Lower(TrimRight(s)) == TrimRight(Lower(s))
  {
    if s != "" && IsSpace(s[|s| - 1]) {
      LowerTrimRight(s[..|s| - 1]);
      assert Lower(s)[..|s| - 1] == Lower(s[..|s| - 1]);
    }
  }

  lemma LowerTrim(s: string)
    ensures Lower(Trim(s)) == Trim(Lower(s))
  {
    LowerTrimLeft(s);
    LowerTrimRight(TrimLeft(s));
  }

  lemma {:induction false} AtMostTotal(a: string, b: string)
    ensures AtMost(a, b) || AtMost(b, a)
    ensures AtMost(a, b) && AtMost(b, a) ==> a == b
  {
    if a != "" && b != "" && a[0] == b[0] {
      AtMostTotal(a[1..], b[1..]);
      assert a == [a[0]] + a[1..] && b == [b[0]] + b[1..];
    }
  }

  lemma {:induction false} AtMostTransitive(a: string, b: string, c: string)
    requires AtMost(a, b) && AtMost(b, c)
    ensures AtMost(a, c)
  {
    if a != "" && a[0] == b[0] == c[0] {
      AtMostTransitive(a[1..], b[1..], c[1..]);
    }
  }

  lemma {:induction false} AtMostReflexive(a: string)
    ensures AtMost(a, a)
  {
    if a != "" { AtMostReflexive(a[1..]); }
  }

  // ---- The same functions, character by character ----

  predicate PartAt(s: string, part: string, i: int) {
    0 <= i <= |s| - |part| && s[i..i + |part|] == part
  }

  lemma PartInFront(s: string, part: string)
    ensures PartAt(s, part, 0) <==> part <= s
  {}

  lemma PartInTail(s: string, part: string, i: int)
    requires s != "" && i > 0
    ensures PartAt(s, part, i) <==> PartAt(s[1..], part, i - 1)
  {
    if i <= |s| - |part| {
      assert s[1..][i - 1..i - 1 + |part|] == s[i..i + |part|];
    }
  }

  /** A part is contained exactly when it stands somewhere. */
  lemma {:induction false} ContainsExactly(s: string, part: string)
    ensures Contains(s, part) <==> exists i :: PartAt(s, part, i)
  {
    PartInFront(s, part);
    if s == "" {
      assert forall i :: PartAt(s, part, i) ==> i == 0;
    } else {
      ContainsExactly(s[1..], part);
      forall i | PartAt(s[1..], part, i) ensures PartAt(s, part, i + 1) { PartInTail(s, part, i + 1); }
      forall i | PartAt(s, part, i) && i != 0 ensures PartAt(s[1..], part, i - 1) { PartInTail(s, part, i); }
      hide PartAt;
      if Contains(s[1..], part) {
        var i :| PartAt(s[1..], part, i);
        assert PartAt(s, part, i + 1);
      }
    }
  }

  /** Position `k` is the first at which `a` and `b` differ, and there `a` ends or is lower. */
  predicate LowerAt(a: string, b: string, k: int) {
    && 0 <= k <= |a| && k <= |b| && a[..k] == b[..k]
    && k < |b| && (k == |a| || a[k] < b[k])
  }

  lemma SameHead(a: string, b: string, k: int)
    requires LowerAt(a, b, k) && a != "" && b != ""
    ensures k > 0 ==> a[0] == b[0]
  {
    if k > 0 { assert a[0] == a[..k][0] && b[0] == b[..k][0]; }
  }

  /** String order, told by the first difference. */
  lemma {:induction false} LessExactly(a: string, b: string)
    ensures Less(a, b) <==> exists k :: LowerAt(a, b, k)
  {
    if a == "" {
      assert LowerAt(a, b, 0) <==> b != "";
    } else if b == "" {
    } else if a[0] != b[0] {
      assert LowerAt(a, b, 0) <==> a[0] < b[0];
      forall k | LowerAt(a, b, k) ensures k == 0 { SameHead(a, b, k); }
    } else {
      LessExactly(a[1..], b[1..]);
      assert a == [a[0]] + a[1..] && b == [b[0]] + b[1..];
      forall k | LowerAt(a[1..], b[1..], k) ensures LowerAt(a, b, k + 1) {
        assert a[..k + 1] == [a[0]] + a[1..][..k] && b[..k + 1] == [b[0]] + b[1..][..k];
      }
      forall k | LowerAt(a, b, k) ensures LowerAt(a[1..], b[1..], k - 1) {
        assert k != 0;
        assert a[1..][..k - 1] == a[..k][1..] && b[1..][..k - 1] == b[..k][1..];
      }
    }
  }

  predicate AllSpace(s: string) {
    forall i | 0 <= i < |s| :: IsSpace(s[i])
  }

  lemma {:induction false} TrimLeftDrops(front: string, rest: string)
    requires AllSpace(front) && (rest == "" || !IsSpace(rest[0]))
    ensures TrimLeft(front + rest) == rest
  {
    if front == "" {
      assert front + rest == rest;
    } else {
      assert (front + rest)[1..] == front[1..] + rest;
      TrimLeftDrops(front[1..], rest);
    }
  }

  lemma {:induction false} TrimRightDrops(rest: string, back: string)
    requires AllSpace(back) && (rest == "" || !IsSpace(rest[|rest| - 1]))
    ensures TrimRight(rest + back) == rest
  {
    if back == "" {
      assert rest + back == rest;
    } else {
      var n := |back| - 1;
      assert (rest + back)[..|rest + back| - 1] == rest + back[..n];
      TrimRightDrops(rest, back[..n]);
    }
  }

  /** TrimSpace takes the blanks at both ends and nothing else. */
  lemma TrimExactly(front: string, middle: string, back: string)
    requires AllSpace(front) && AllSpace(back) && Trimmed(middle) && middle != ""
    ensures Trim(front + middle + back) == middle
  {
    assert front + middle + back == front + (middle + back);
    TrimLeftDrops(front, middle + back);
    TrimRightDrops(middle, back);
  }

  /** A text without anything but blanks is blank. */
  lemma BlankExactly(s: string)
    ensures Blank(s) <==> AllSpace(s)
  {
    if AllSpace(s) {
      TrimLeftDrops(s, "");
      assert s + "" == s;
    } else {
      var i :| 0 <= i < |s| && !IsSpace(s[i]);
      KeepsNonBlank(s, i);
    }
  }

  lemma {:induction false} KeepsNonBlank(s: string, i: nat)
    requires i < |s| && !IsSpace(s[i])
    ensures Trim(s) != ""
  {
    TrimLeftKeeps(s, i);
    TrimLeftEnd(s);
    var t := TrimLeft(s);
    if IsSpace(t[|t| - 1]) { TrimRightKeeps(t); }
  }

  lemma {:induction false} TrimLeftKeeps(s: string, i: nat)
    requires i < |s| && !IsSpace(s[i])
    ensures TrimLeft(s) != "" && !IsSpace(TrimLeft(s)[0])
  {
    if IsSpace(s[0]) { TrimLeftKeeps(s[1..], i - 1); }
  }

  lemma {:induction false} TrimRightKeeps(s: string)
    requires s != "" && !IsSpace(s[0])
    ensures TrimRight(s) != ""
  {
    if IsSpace(s[|s| - 1]) { TrimRightKeeps(s[..|s| - 1]); }
  }
}
