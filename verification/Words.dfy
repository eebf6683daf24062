/** RouterOS API words: a parameter map becomes sorted `=key=value` and `?key=value`
    words, and a device reads them by splitting at the first "=" after the marker. */
module Words {
  import opened Text

  type Params = map<string, string>

  // ---- sortStrings ----

  predicate Sorted(s: seq<string>) {
    forall i, j | 0 <= i < j < |s| :: AtMost(s[i], s[j])
  }

  predicate StrictlySorted(s: seq<string>) {
    forall i, j | 0 <= i < j < |s| :: Less(s[i], s[j])
  }

  method Swap(a: array<string>, i: nat, j: nat)
    requires i < j < a.Length
    modifies a
    ensures a[..] == old(a[..])[i := old(a[j])][j := old(a[i])]
    ensures multiset(a[..]) == multiset(old(a[..]))
  {
    a[i], a[j] := a[j], a[i];
  }

  /** Positions before `i` hold, in order, the least elements of the array. */
  ghost predicate Settled(s: seq<string>, i: nat)
    requires i <= |s|
  {
    && (forall p, q | 0 <= p < q < i :: AtMost(s[p], s[q]))
    && (forall p, q | 0 <= p < i <= q < |s| :: AtMost(s[p], s[q]))
  }

  ghost predicate LeastAmong(s: seq<string>, i: nat, j: nat)
    requires i < |s| && j <= |s|
  {
    forall q | i < q < j :: AtMost(s[i], s[q])
  }

  /** The exchange sort of `sortStrings`, in place. */
  method SortStrings(values: array<string>)
    modifies values
    ensures Sorted(values[..])
    ensures multiset(values[..]) == multiset(old(values[..]))
  {
    if values.Length < 2 { return; }
    var i := 0;
    while i < values.Length - 1
      invariant 0 <= i < values.Length
      invariant Settled(values[..], i)
      invariant multiset(values[..]) == multiset(old(values[..]))
    {
      SelectLeast(values, i);
      i := i + 1;
    }
  }

  /** The inner loop: exchanges bring the least remaining element to position `i`. */
  method SelectLeast(values: array<string>, i: nat)
    requires i < values.Length - 1 && Settled(values[..], i)
    modifies values
    ensures Settled(values[..], i + 1)
    ensures multiset(values[..]) == multiset(old(values[..]))
  {
    var j := i + 1;
    while j < values.Length
      invariant i < j <= values.Length
      invariant Settled(values[..], i) && LeastAmong(values[..], i, j)
      invariant multiset(values[..]) == multiset(old(values[..]))
    {
      ghost var before := values[..];
      AtMostTotal(values[j], values[i]);
      AtMostReflexive(values[i]);
      if Less(values[j], values[i]) {
        ExchangeKeeps(before, i, j);
        Swap(values, i, j);
      }
      j := j + 1;
    }
    SettledGrows(values[..], i);
  }

  lemma ExchangeKeeps(s: seq<string>, i: nat, j: nat)
    requires i < j < |s| && Settled(s, i) && LeastAmong(s, i, j) && AtMost(s[j], s[i])
    ensures Settled(s[i := s[j]][j := s[i]], i) && LeastAmong(s[i := s[j]][j := s[i]], i, j + 1)
  {
    var t := s[i := s[j]][j := s[i]];
    forall q | i < q < j + 1 ensures AtMost(t[i], t[q]) {
      if q < j { AtMostTransitive(s[j], s[i], s[q]); }
    }
  }

  lemma SettledGrows(s: seq<string>, i: nat)
    requires i < |s| && Settled(s, i) && LeastAmong(s, i, |s|)
    ensures Settled(s, i + 1)
  {}

  lemma SortedHead(a: seq<string>, b: seq<string>)
    requires Sorted(a) && Sorted(b) && multiset(a) == multiset(b) && a != [] && b != []
    ensures a[0] == b[0]
  {
    assert a[0] in multiset(b) && b[0] in multiset(a);
    var i :| 0 <= i < |b| && b[i] == a[0];
    var j :| 0 <= j < |a| && a[j] == b[0];
    AtMostReflexive(a[0]);
    AtMostTotal(a[0], b[0]);
  }

  lemma MultisetTail(a: seq<string>)
    requires a != []
    ensures multiset(a[1..]) == multiset(a) - multiset{a[0]}
  {
    assert a == [a[0]] + a[1..];
  }

  /** Two sorted sequences with the same elements are the same sequence. */
  lemma {:induction false} SortedIsUnique(a: seq<string>, b: seq<string>)
    requires Sorted(a) && Sorted(b) && multiset(a) == multiset(b)
    ensures a == b
  {
    hide AtMost;
    assert |a| == |multiset(a)| == |multiset(b)| == |b|;
    if a != [] {
      SortedHead(a, b);
      MultisetTail(a);
      MultisetTail(b);
      SortedIsUnique(a[1..], b[1..]);
      assert a == [a[0]] + a[1..] && b == [b[0]] + b[1..];
    }
  }

  // ---- mapParams ----

  /** The word for one parameter; a blank key gives none. */
  function WordOf(key: string, value: string): seq<string> {
    var k := Trim(key);
    if k == "" then []
    else if k[0] == '?' then [k + "=" + value]
    else if k[0] == '=' then ["=" + k[1..] + "=" + value]
    else ["=" + k + "=" + value]
  }

  function WordsFor(keys: seq<string>, params: Params): seq<string>
    requires forall k | k in keys :: k in params
  {
    if keys == [] then []
    else WordsFor(keys[..|keys| - 1], params) + WordOf(keys[|keys| - 1], params[keys[|keys| - 1]])
  }

  /** The one ordering of a set of keys, whatever order the map is walked in. */
  ghost predicate KeyOrder(keys: seq<string>, params: Params) {
    StrictlySorted(keys) && forall k :: k in keys <==> k in params
  }

  lemma {:induction false} KeyOrderExists(ks: set<string>) returns (keys: seq<string>)
    ensures StrictlySorted(keys) && forall k :: k in keys <==> k in ks
  {
    if ks == {} {
      keys := [];
    } else {
      var x := GreatestKey(ks);
      var rest := KeyOrderExists(ks - {x});
      keys := rest + [x];
    }
  }

  lemma {:induction false} GreatestKey(ks: set<string>) returns (x: string)
    requires ks != {}
    ensures x in ks && forall k | k in ks :: AtMost(k, x)
  {
    var y :| y in ks;
    AtMostReflexive(y);
    if ks == {y} {
      x := y;
    } else {
      var z := GreatestKey(ks - {y});
      AtMostTotal(y, z);
      AtMostReflexive(z);
      if AtMost(y, z) {
        x := z;
        assert forall k | k in ks :: k == y || k in ks - {y};
      } else {
        x := y;
        forall k | k in ks ensures AtMost(k, x) {
          if k != y {
            assert k in ks - {y};
            AtMostTransitive(k, z, y);
          }
        }
      }
    }
  }

  lemma KeyOrderIsUnique(a: seq<string>, b: seq<string>, params: Params)
    requires KeyOrder(a, params) && KeyOrder(b, params)
    ensures a == b
  {
    DistinctMultiset(a, params.Keys);
    DistinctMultiset(b, params.Keys);
    assert Sorted(a) && Sorted(b);
    SortedIsUnique(a, b);
  }

  lemma {:induction false} DistinctMultiset(s: seq<string>, ks: set<string>)
    requires StrictlySorted(s) && forall k :: k in s <==> k in ks
    ensures multiset(s) == multiset(ks)
  {
    if s == [] {
      assert ks == {};
    } else {
      var front, x := s[..|s| - 1], s[|s| - 1];
      assert s == front + [x];
      assert x !in front;
      DistinctMultiset(front, ks - {x});
      assert ks == (ks - {x}) + {x};
    }
  }

  ghost function SortedKeys(params: Params): (keys: seq<string>)
    ensures KeyOrder(keys, params)
  {
    KeyOrderWitness(params);
    var keys :| KeyOrder(keys, params);
    keys
  }

  lemma KeyOrderWitness(params: Params)
    ensures exists keys :: KeyOrder(keys, params)
  {
    var keys := KeyOrderExists(params.Keys);
    assert KeyOrder(keys, params);
  }

  /** The words of a parameter map. */
  ghost function Encoded(params: Params): seq<string> {
    WordsFor(SortedKeys(params), params)
  }

  method MapParams(params: Params) returns (words: seq<string>)
    ensures words == Encoded(params)
  {
    var keys := SortedKeyArray(params);
    ghost var order := SortedKeys(params);
    words := [];
    for i := 0 to keys.Length
      invariant keys[..] == order
      invariant words == WordsFor(order[..i], params)
    {
      assert order[..i + 1][..i] == order[..i];
      words := words + WordOf(keys[i], params[keys[i]]);
    }
    assert order[..|order|] == order;
  }

  method SortedKeyArray(params: Params) returns (keys: array<string>)
    ensures fresh(keys) && keys[..] == SortedKeys(params)
  {
    hide AtMost;
    keys := CollectKeys(params);
    ghost var collected := keys[..];
    SortStrings(keys);
    SortedDistinct(collected, keys[..]);
    KeyOrderIsUnique(keys[..], SortedKeys(params), params);
  }

  predicate Distinct(s: seq<string>) {
    forall i, j | 0 <= i < j < |s| :: s[i] != s[j]
  }

  /** Walks the map in an order of its own choosing. */
  method CollectKeys(params: Params) returns (keys: array<string>)
    ensures fresh(keys) && Distinct(keys[..]) && forall k :: k in keys[..] <==> k in params
  {
    var left := params.Keys;
    var listed: seq<string> := [];
    while left != {}
      invariant left <= params.Keys && Distinct(listed)
      invariant forall k :: k in listed <==> k in params.Keys - left
      decreases left
    {
      var k :| k in left;
      assert k !in listed;
      left := left - {k};
      listed := listed + [k];
    }
    keys := new string[|listed|](i requires 0 <= i < |listed| => listed[i]);
    assert keys[..] == listed;
  }

  lemma {:induction false} DistinctCounts(s: seq<string>, k: string)
    requires Distinct(s)
    ensures multiset(s)[k] <= 1
  {
    if s != [] {
      assert s == s[..|s| - 1] + [s[|s| - 1]];
      DistinctCounts(s[..|s| - 1], k);
      if k == s[|s| - 1] { assert k !in s[..|s| - 1]; }
    }
  }

  lemma DuplicateCounts(s: seq<string>, i: nat, j: nat)
    requires i < j < |s| && s[i] == s[j]
    ensures multiset(s)[s[i]] >= 2
  {
    assert s == s[..j] + [s[j]] + s[j + 1..];
    assert s[..j][i] in multiset(s[..j]);
  }

  lemma SortedDistinct(before: seq<string>, after: seq<string>)
    requires Distinct(before) && Sorted(after) && multiset(before) == multiset(after)
    ensures StrictlySorted(after) && forall k :: k in after <==> k in before
  {
    forall i, j | 0 <= i < j < |after| ensures after[i] != after[j] {
      DistinctCounts(before, after[i]);
      if after[i] == after[j] { DuplicateCounts(after, i, j); }
    }
    forall k ensures k in after <==> k in before {
      assert k in multiset(after) <==> k in multiset(before);
    }
  }

  // ---- The device's reading of the words ----

  function IndexOf(s: string, c: char): (i: nat)
    ensures i <= |s| && c !in s[..i] && (i < |s| ==> s[i] == c)
  {
    if s == "" || s[0] == c then 0
    else
      var i := IndexOf(s[1..], c) + 1;
      assert s[..i] == [s[0]] + s[1..][..i - 1];
      i
  }

  /** One word: a marker, then a key and a value around the first "=". */
  function ReadWord(word: string): Option<(string, string)> {
    if word == "" || (word[0] != '=' && word[0] != '?') then None
    else
      var body := word[1..];
      var i := IndexOf(body, '=');
      if i == |body| then None
      else Some(((if word[0] == '?' then "?" else "") + body[..i], body[i + 1..]))
  }

  function Decoded(words: seq<string>): Params {
    if words == [] then map[]
    else
      var front := Decoded(words[..|words| - 1]);
      match ReadWord(words[|words| - 1])
      case None => front
      case Some((key, value)) => front[key := value]
  }

  /** A key the wire carries unchanged. */
  predicate WireKey(key: string) {
    key != "" && Trimmed(key) && '=' !in key
  }

  lemma IndexOfFirst(front: string, c: char, rest: string)
    requires c !in front
    ensures IndexOf(front + [c] + rest, c) == |front|
  {
    if front != "" {
      IndexOfFirst(front[1..], c, rest);
      assert (front + [c] + rest)[1..] == front[1..] + [c] + rest;
    } else {
      assert front + [c] + rest == [c] + rest;
    }
  }

  lemma WireKeySurvives(key: string, value: string)
    requires WireKey(key)
    ensures |WordOf(key, value)| == 1 && ReadWord(WordOf(key, value)[0]) == Some((key, value))
  {
    TrimIsTrimmed(key);
    if key[0] == '?' {
      var body := key[1..] + ['='] + value;
      assert (key + "=" + value)[1..] == body;
      IndexOfFirst(key[1..], '=', value);
      assert body[..|key| - 1] == key[1..] && body[|key|..] == value;
      assert "?" + key[1..] == key;
    } else {
      var body := key + ['='] + value;
      assert ("=" + key + "=" + value)[1..] == body;
      IndexOfFirst(key, '=', value);
      assert key[0] in key;
      assert "" + body[..|key|] == key && body[|key| + 1..] == value;
    }
  }

  /** The reading of any word has a key without "=", and trimmed if it had no "=" before. */
  lemma ReadBackKey(key: string, value: string)
    ensures |WordOf(key, value)| <= 1
    ensures WordOf(key, value) == [] ==> Trim(key) == ""
    ensures WordOf(key, value) != [] && ReadWord(WordOf(key, value)[0]).Some? ==>
              var read := ReadWord(WordOf(key, value)[0]).value.0;
              '=' !in read && ('=' !in key ==> read == Trim(key) && read != "")
  {
    var k := Trim(key);
    TrimIsTrimmed(key);
    TrimDropsNothingElse(key, '=');
    if k != "" {
      var word := WordOf(key, value)[0];
      assert '=' !in word[1..][..IndexOf(word[1..], '=')];
      if '=' !in key {
        WireKeySurvives(k, value);
        assert WordOf(key, value) == WordOf(k, value);
      }
    }
  }

  lemma TrimLeftMembers(s: string, c: char)
    ensures c in TrimLeft(s) ==> c in s
  {
    if s != "" && IsSpace(s[0]) { TrimLeftMembers(s[1..], c); }
  }

  lemma TrimRightMembers(s: string, c: char)
    ensures c in TrimRight(s) ==> c in s
  {
    if s != "" && IsSpace(s[|s| - 1]) { TrimRightMembers(s[..|s| - 1], c); }
  }

  lemma TrimDropsNothingElse(s: string, c: char)
    ensures c in Trim(s) ==> c in s
  {
    TrimLeftMembers(s, c);
    TrimRightMembers(TrimLeft(s), c);
  }

  /** Decoding a list of encoded keys gives each key its value. */
  lemma {:induction false} DecodedWires(keys: seq<string>, params: Params)
    requires forall k | k in keys :: k in params && WireKey(k)
    ensures Decoded(WordsFor(keys, params)) == map k | k in keys :: params[k]
  {
    if keys != [] {
      var front, x := keys[..|keys| - 1], keys[|keys| - 1];
      assert keys == front + [x];
      DecodedWires(front, params);
      WireKeySurvives(x, params[x]);
      var words := WordsFor(front, params);
      assert WordsFor(keys, params) == words + [WordOf(x, params[x])[0]];
      assert (words + [WordOf(x, params[x])[0]])[..|words|] == words;
    }
  }

  lemma DecodedLast(words: seq<string>, last: seq<string>, key: string)
    requires |last| <= 1 && key in Decoded(words + last)
    ensures key in Decoded(words) || (last != [] && ReadWord(last[0]).Some? && key == ReadWord(last[0]).value.0)
  {
    if last == [] {
      assert words + last == words;
    } else {
      assert words + last == words + [last[0]];
      assert (words + last)[..|words|] == words;
    }
  }

  /** No decoded key contains "=" or, unless some key did, is blank or padded. */
  lemma {:induction false} DecodedKeys(keys: seq<string>, params: Params, key: string)
    requires forall k | k in keys :: k in params
    requires key in Decoded(WordsFor(keys, params))
    ensures '=' !in key
    ensures (exists k | k in keys :: '=' in k) || (key != "" && Trimmed(key))
  {
    hide ReadWord, WordOf, Decoded, Trim;
    assert keys != [] by { if keys == [] { NothingDecoded(key); } }
    var front, x := keys[..|keys| - 1], keys[|keys| - 1];
    assert x in keys && forall k | k in front :: k in keys;
    var words, last := WordsFor(front, params), WordOf(x, params[x]);
    ReadBackKey(x, params[x]);
    TrimIsTrimmed(x);
    DecodedLast(words, last, key);
    if key in Decoded(words) {
      DecodedKeys(front, params, key);
    }
  }

  lemma NothingDecoded(key: string)
    ensures key !in Decoded([])
  {}

  /** A parameter map reaches the device unchanged exactly when its keys are non-empty,
      trimmed and free of "="; the values are arbitrary. */
  lemma RoundTripExactly(params: Params)
    ensures Decoded(Encoded(params)) == params <==> forall k | k in params :: WireKey(k)
  {
    var keys := SortedKeys(params);
    if forall k | k in params :: WireKey(k) {
      DecodedWires(keys, params);
      assert Decoded(Encoded(params)) == params;
    }
    if Decoded(Encoded(params)) == params {
      forall k | k in params ensures WireKey(k) {
        assert forall x | x in keys :: '=' !in x by {
          forall x | x in keys ensures '=' !in x { DecodedKeys(keys, params, x); }
        }
        DecodedKeys(keys, params, k);
      }
    }
  }
}
