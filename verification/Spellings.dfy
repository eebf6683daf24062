/** Which spellings name the same thing, and how a command is spelled on the wire. */
module Spellings {
  import opened Text
  import opened Words
  import opened Devices
  import opened AddressLists
  import opened FirewallRules
  import opened Adapters
  import opened Engine

  // ---- Addresses and tables ----

  lemma LowerSlash(s: string)
    ensures HasSuffix(Lower(s), "/32") <==> HasSuffix(s, "/32")
  {
    if |s| >= 3 {
      var n := |s| - 3;
      assert Lower(s)[n..][0] == LowerChar(s[n]) && s[n..][0] == s[n];
      assert Lower(s)[n..][1] == LowerChar(s[n + 1]) && s[n..][1] == s[n + 1];
      assert Lower(s)[n..][2] == LowerChar(s[n + 2]) && s[n..][2] == s[n + 2];
      assert Lower(s)[n..] == [LowerChar(s[n]), LowerChar(s[n + 1]), LowerChar(s[n + 2])];
      assert s[n..] == [s[n], s[n + 1], s[n + 2]];
    }
  }

  lemma LowerKeepsSpaces(s: string)
    ensures AllSpace(s) ==> Lower(s) == s
    ensures Trimmed(s) <==> Trimmed(Lower(s))
  {}

  /** An address with blanks around it, and with or without its "/32", is one target, and
      case does not matter. */
  lemma OneAddress(front: string, address: string, back: string)
    requires AllSpace(front) && AllSpace(back) && Trimmed(address) && address != "" && !HasSuffix(address, "/32")
    ensures NormalAddress(front + address + back) == Lower(address)
    ensures NormalAddress(front + address + "/32" + back) == Lower(address)
  {
    hide Trim, Lower;
    LowerParts(front, address, back);
    LowerParts(front, address + "/32", back);
    LowerSuffix(address);
    LowerKeepsSpaces(address);
    LowerKeepsSpaces(front);
    LowerKeepsSpaces(back);
    LowerSlash(address);
    TrimExactly(front, Lower(address), back);
    TrimExactly(front, Lower(address) + "/32", back);
    assert front + (address + "/32") + back == front + address + "/32" + back;
    assert (Lower(address) + "/32")[..|address|] == Lower(address);
    assert (Lower(address) + "/32")[|address|..] == "/32";
  }

  lemma LowerParts(a: string, b: string, c: string)
    ensures Lower(a + b + c) == Lower(a) + Lower(b) + Lower(c)
  {}

  lemma LowerSuffix(address: string)
    ensures Lower(address + "/32") == Lower(address) + "/32"
  {
    assert Lower("/32") == "/32";
    LowerParts(address, "/32", "");
    assert address + "/32" + "" == address + "/32" && Lower(address) + "/32" + "" == Lower(address) + "/32";
  }

  /** Two plain addresses are one target exactly when they differ in case alone. */
  lemma SameTargetExactly(a: string, b: string)
    requires Trimmed(a) && a != "" && !HasSuffix(a, "/32") && Trimmed(b) && b != "" && !HasSuffix(b, "/32")
    ensures SameTarget(a, b) <==> Lower(a) == Lower(b)
    ensures SameTarget(a + "/32", b) <==> Lower(a) == Lower(b)
  {
    hide Lower, NormalAddress;
    OneAddress("", a, "");
    OneAddress("", b, "");
    assert "" + a + "" == a && "" + b + "" == b && "" + a + "/32" + "" == a + "/32";
  }

  /** Tables are named without regard to case and blanks. */
  lemma OneTable(front: string, table: string, back: string)
    requires AllSpace(front) && AllSpace(back) && Trimmed(table) && table != ""
    ensures NormalTable(front + table + back) == Lower(table)
  {
    TrimExactly(front, table, back);
  }

  // ---- Hardware addresses ----

  /** Upper case, no dashes, no blanks: how hardware addresses are stored. */
  predicate StoredMac(mac: string) {
    mac != "" && forall c | c in mac :: !IsSpace(c) && c != '-' && !('a' <= c <= 'z')
  }

  /** One character in the hand of a user. */
  predicate Spelled(typed: char, stored: char) {
    || typed == stored
    || (stored == ':' && typed == '-')
    || ('A' <= stored <= 'Z' && typed == LowerChar(stored))
  }

  predicate SpelledAs(typed: string, mac: string) {
    |typed| == |mac| && forall i | 0 <= i < |mac| :: Spelled(typed[i], mac[i])
  }

  lemma SpelledChar(typed: char, stored: char)
    requires Spelled(typed, stored) && !IsSpace(stored) && stored != '-' && !('a' <= stored <= 'z')
    ensures ColonChar(UpperChar(typed)) == stored && UpperChar(ColonChar(typed)) == stored && !IsSpace(typed)
  {}

  lemma SpelledBack(typed: string, mac: string)
    requires StoredMac(mac) && SpelledAs(typed, mac)
    ensures ColonDashes(Upper(typed)) == mac && Upper(ColonDashes(typed)) == mac
    ensures forall c | c in typed :: !IsSpace(c)
  {
    hide IsSpace, ColonChar, UpperChar, Spelled;
    forall i | 0 <= i < |mac|
      ensures ColonDashes(Upper(typed))[i] == mac[i] && Upper(ColonDashes(typed))[i] == mac[i] && !IsSpace(typed[i])
    {
      assert mac[i] in mac;
      SpelledChar(typed[i], mac[i]);
    }
  }

  lemma {:induction false} NothingToDrop(s: string)
    requires forall c | c in s :: !IsSpace(c)
    ensures WithoutSpaces(s) == s
  {
    if s != "" {
      assert s[0] in s && forall c | c in s[1..] :: c in s;
      NothingToDrop(s[1..]);
      assert s == [s[0]] + s[1..];
    }
  }

  lemma UpperKeepsSpaces(s: string)
    ensures AllSpace(s) ==> Upper(s) == s
  {}

  lemma UpperParts(a: string, b: string, c: string)
    ensures Upper(a + b + c) == Upper(a) + Upper(b) + Upper(c)
  {}

  /** However a stored address is typed, in either case, with dashes or colons and with
      blanks around it, both normalisations find it. */
  lemma OneDevice(front: string, typed: string, back: string, mac: string)
    requires StoredMac(mac) && AllSpace(front) && AllSpace(back) && SpelledAs(typed, mac)
    ensures NormalId(front + typed + back) == mac && NormalMac(front + typed + back) == mac
  {
    hide Trim, Upper, ColonDashes, WithoutSpaces, IsSpace, AllSpace, Spelled;
    SpelledBack(typed, mac);
    UpperParts(front, typed, back);
    UpperKeepsSpaces(front);
    UpperKeepsSpaces(back);
    UpperStaysTrimmed(typed);
    TrimExactly(front, Upper(typed), back);
    TrimExactly(front, typed, back);
    NothingToDrop(typed);
  }

  lemma UpperStaysTrimmed(s: string)
    requires s != "" && forall c | c in s :: !IsSpace(c)
    ensures Trimmed(s) && Trimmed(Upper(s))
  {
    assert s[0] in s && s[|s| - 1] in s;
  }

  // ---- Parameters ----

  /** The parameter is a string that is this value between blanks. */
  predicate Says(params: Adapters.Params, key: string, value: string) {
    key in params && params[key].Str? && value != "" && Trim(params[key].text) == value
  }

  /** The list action: which entry it is about, by the address last seen, by the hardware
      address or written out; and none if the device has no address. */
  lemma MembershipTold(target: Target, params: Adapters.Params, list: string, mode: string, v: View)
    requires Says(params, "list", list) && Says(params, "mode", mode) && mode in ["add", "remove"]
    ensures Says(params, "target", "device.ip") && target == Target(DeviceScope, Some(v)) ==>
              ActionFact(AddressListMembership, target, params)
                == if v.lastIp.None? || Blank(v.lastIp.value) then None
                   else Some((Member(list, NormalAddress(v.lastIp.value)), mode == "add"))
    ensures Says(params, "target", "device.mac") && target == Target(DeviceScope, Some(v)) && !Blank(v.mac) ==>
              ActionFact(AddressListMembership, target, params)
                == Some((Member(list, NormalAddress(v.mac)), mode == "add"))
    ensures forall ip | Says(params, "target", "literal_ip") && Says(params, "literal_ip", ip)
              && (target.scope == DeviceScope || !Contains(Lower(ip), "{{device.")) ::
              ActionFact(AddressListMembership, target, params)
                == Some((Member(list, NormalAddress(ip)), mode == "add"))
    ensures target.scope == GlobalScope && !Says(params, "target", "literal_ip") ==>
              ActionFact(AddressListMembership, target, params).None?
  {
    hide Trim, NormalAddress, Lower, Contains;
    if v.lastIp.Some? { NormalTrim(v.lastIp.value); }
    assert mode != "add" ==> mode == "remove";
    assert "add"[0] != "enable"[0] && "remove"[0] != "enable"[0];
  }

  /** What the list action asks for: a list, one of its modes, and a target that the scope has;
      a written address must mention no device where there is none. */
  lemma MembershipValidExactly(scope: Scope, params: Adapters.Params)
    ensures ActionValid(AddressListMembership, scope, params) <==>
              && (exists list :: Says(params, "list", list))
              && (Says(params, "mode", "add") || Says(params, "mode", "remove"))
              && SourceValid(AddressListContains, scope, params)
    ensures SourceValid(AddressListContains, scope, params) <==>
              && (exists list :: Says(params, "list", list))
              && (|| (scope == DeviceScope
                      && (Says(params, "target", "device.ip") || Says(params, "target", "device.mac")))
                  || (Says(params, "target", "literal_ip")
                      && exists ip :: Says(params, "literal_ip", ip)
                           && (scope == DeviceScope || !Contains(Lower(ip), "{{device."))))
  {
    hide Trim, Lower, Contains, StringParam;
    SaysExactly(params, "list");
    SaysExactly(params, "mode");
    SaysExactly(params, "target");
    SaysExactly(params, "literal_ip");
  }

  lemma SaysExactly(params: Adapters.Params, key: string)
    ensures forall value :: Says(params, key, value) <==> StringParam(params, key) == Some(value)
    ensures StringParam(params, key).Some? ==> Says(params, key, StringParam(params, key).value)
  {
    hide Trim;
  }

  /** What the rule action and the rule source ask for: a table, an id or a comment that names
      no device where there is none, and for the action one of its modes. */
  lemma ToggleValidExactly(scope: Scope, params: Adapters.Params)
    ensures ActionValid(FirewallRuleToggle, scope, params) <==>
              && (Says(params, "mode", "enable") || Says(params, "mode", "disable"))
              && SourceValid(FirewallRuleEnabled, scope, params)
    ensures SourceValid(FirewallRuleEnabled, scope, params) <==>
              && (Says(params, "table", "filter") || Says(params, "table", "nat") || Says(params, "table", "mangle")
                  || Says(params, "table", "raw"))
              && (|| (Says(params, "match_by", "id")
                      && exists id :: Says(params, "rule_id", id)
                           && (scope == DeviceScope || !Contains(Lower(id), "{{device.")))
                  || (Says(params, "match_by", "comment")
                      && exists comment :: Says(params, "comment", comment)
                           && (scope == DeviceScope || !Contains(Lower(comment), "{{device."))))
  {
    hide Trim, Lower, Contains, StringParam;
    SaysExactly(params, "table");
    SaysExactly(params, "mode");
    SaysExactly(params, "match_by");
    SaysExactly(params, "rule_id");
    SaysExactly(params, "comment");
  }

  /** The rule action: which rule, by its id or by a comment, in which table. */
  lemma ToggleTold(target: Target, params: Adapters.Params, table: string, key: string, mode: string)
    requires Says(params, "table", table) && table in ["filter", "nat", "mangle", "raw"]
    requires Says(params, "mode", mode) && mode in ["enable", "disable"] && target.scope == DeviceScope
    ensures Says(params, "match_by", "id") && Says(params, "rule_id", key) ==>
              ActionFact(FirewallRuleToggle, target, params) == Some((RuleOn(table, key), mode == "enable"))
    ensures Says(params, "match_by", "comment") && Says(params, "comment", key) ==>
              ActionFact(FirewallRuleToggle, target, params) == Some((CommentOn(table, key), mode == "enable"))
  {
    hide Trim, Lower, Contains;
    TableNames();
    assert "disable"[0] != "enable"[0] && "disable"[0] != "add"[0] && "enable"[0] != "add"[0];
    assert "comment"[0] != "id"[0];
  }

  /** A source reads the very fact that an action with the same parameters sets. */
  lemma SourceReadsWhatActionSets(target: Target, params: Adapters.Params)
    ensures var fact := ActionFact(AddressListMembership, target, params);
            fact.Some? ==> SourceFact(AddressListContains, target, params) == Some(fact.value.0)
    ensures var fact := ActionFact(FirewallRuleToggle, target, params);
            fact.Some? ==> SourceFact(FirewallRuleEnabled, target, params) == Some(fact.value.0)
  {
    hide StringParam, ResolveAddress;
  }

  lemma TableNames()
    ensures forall table | table in ["filter", "nat", "mangle", "raw"] :: NormalTable(table) == table
  {
    hide Trim;
    TrimIsTrimmed("filter");
    TrimIsTrimmed("nat");
    TrimIsTrimmed("mangle");
    TrimIsTrimmed("raw");
    assert Lower("filter") == "filter" && Lower("nat") == "nat" && Lower("mangle") == "mangle" && Lower("raw") == "raw";
  }

  // ---- The wire ----

  /** One parameter on the wire: a query keeps its question mark, any other key gets an
      equals sign in front. */
  function Wire(key: string, value: string): string {
    (if key != "" && key[0] == '?' then "" else "=") + key + "=" + value
  }

  /** A parameter map is sent as one word for each key, in the order of the keys. */
  lemma WordsTold(keys: seq<string>, params: Words.Params)
    requires KeyOrder(keys, params) && forall k | k in params :: WireKey(k)
    ensures |Encoded(params)| == |keys|
    ensures forall i | 0 <= i < |keys| :: Encoded(params)[i] == Wire(keys[i], params[keys[i]])
  {
    hide AtMost, WordsFor, Wire;
    KeyOrderIsUnique(keys, SortedKeys(params), params);
    WordsForTold(keys, params);
  }

  lemma {:induction false} WordsForTold(keys: seq<string>, params: Words.Params)
    requires forall k | k in keys :: k in params && WireKey(k)
    ensures |WordsFor(keys, params)| == |keys|
    ensures forall i | 0 <= i < |keys| :: WordsFor(keys, params)[i] == Wire(keys[i], params[keys[i]])
  {
    hide WordOf, Wire, WireKey;
    if keys != [] {
      var front, last := keys[..|keys| - 1], keys[|keys| - 1];
      assert last in keys && forall k | k in front :: k in keys;
      WordsForTold(front, params);
      WordTold(last, params[last]);
    }
  }

  lemma WordTold(key: string, value: string)
    requires WireKey(key)
    ensures WordOf(key, value) == [Wire(key, value)]
  {
    TrimIsTrimmed(key);
    if key[0] == '?' { assert "" + key + "=" + value == key + "=" + value; }
  }

  lemma OneKey(key: string, value: string)
    requires WireKey(key)
    ensures Encoded(map[key := value]) == [Wire(key, value)]
  {
    hide WireKey, Wire;
    assert KeyOrder([key], map[key := value]);
    WordsTold([key], map[key := value]);
  }

  lemma TwoKeys(first: string, value: string, second: string, other: string)
    requires WireKey(first) && WireKey(second) && first[0] < second[0]
    ensures Encoded(map[first := value, second := other]) == [Wire(first, value), Wire(second, other)]
  {
    hide Wire;
    var (keys, params) := ([first, second], map[first := value, second := other]);
    assert keys[0] == first && keys[1] == second;
    assert KeyOrder(keys, params);
    WordsTold(keys, params);
  }

  /** The commands of the backend, word for word. */
  lemma CommandsTold(list: string, address: string, id: string, disabled: bool)
    ensures PrintWords(list) == ["=.proplist=" + ".id,list,address", "?list=" + list]
    ensures AddWords(list, address) == ["=address=" + address, "=list=" + list]
    ensures RemoveWords(id) == ["=.id=" + id]
    ensures RulePrintWords() == ["=.proplist=" + ".id,chain,action,comment,disabled"]
    ensures RuleSetWords(id, disabled) == ["=.id=" + id, "=disabled=" + if disabled then "yes" else "no"]
  {
    hide Encoded, Wire;
    assert WireKey(".proplist") && WireKey("?list") && WireKey("list") && WireKey("address") && WireKey(".id");
    SameMaps(list, address);
    TwoKeys(".proplist", ".id,list,address", "?list", list);
    TwoKeys("address", address, "list", list);
    TwoKeys(".id", id, "disabled", BoolToWord(disabled));
    OneKey(".id", id);
    OneKey(".proplist", ".id,chain,action,comment,disabled");
    WiredKeys(list, address, id, BoolToWord(disabled), ".id,list,address");
    WiredKeys(list, address, id, BoolToWord(disabled), ".id,chain,action,comment,disabled");
  }

  lemma WiredKeys(list: string, address: string, id: string, flag: string, columns: string)
    ensures Wire(".proplist", columns) == "=.proplist=" + columns && Wire("?list", list) == "?list=" + list
    ensures Wire("list", list) == "=list=" + list && Wire("address", address) == "=address=" + address
    ensures Wire(".id", id) == "=.id=" + id && Wire("disabled", flag) == "=disabled=" + flag
  {
    assert "=" + ".proplist" + "=" == "=.proplist=" && "" + "?list" + "=" == "?list=";
    assert "=" + "list" + "=" == "=list=" && "=" + "address" + "=" == "=address=";
    assert "=" + ".id" + "=" == "=.id=" && "=" + "disabled" + "=" == "=disabled=";
  }

  lemma SameMaps(list: string, address: string)
    ensures map["?list" := list, ".proplist" := ".id,list,address"]
         == map[".proplist" := ".id,list,address", "?list" := list]
    ensures map["list" := list, "address" := address] == map["address" := address, "list" := list]
  {
    assert "?list"[0] != ".proplist"[0] && "list"[0] != "address"[0];
  }
}
