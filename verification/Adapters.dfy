/** The MikroTik actions and state sources. Each resolves, for one target, to a boolean
    fact about the device: an action sets it, a source reads it. */
module Adapters {
  import opened Text
  import opened Devices
  import opened Transport
  import opened AddressLists
  import opened FirewallRules

  /** A JSON parameter value: a string, or anything else. */
  datatype Value = Str(text: string) | Other

  type Params = map<string, Value>

  datatype Scope = DeviceScope | GlobalScope

  /** What the automation sees of a device: `devicedomain.Device`. */
  datatype View = View(mac: string, lastIp: Option<string>)

  datatype Target = Target(scope: Scope, device: Option<View>)

  datatype ActionKind = AddressListMembership | FirewallRuleToggle

  datatype SourceKind = AddressListContains | FirewallRuleEnabled

  // ---- Parameters ----

  /** `stringParam`: present, a string, and not blank. */
  function StringParam(params: Params, key: string): Option<string> {
    if key !in params || params[key].Other? || Trim(params[key].text) == "" then None
    else Some(Trim(params[key].text))
  }

  predicate HasDevicePlaceholder(raw: string) {
    Contains(Lower(raw), "{{device.")
  }

  /** A parameter that is present and, for the global scope, mentions no device. */
  predicate ScopedParam(scope: Scope, params: Params, key: string) {
    StringParam(params, key).Some? && !(scope == GlobalScope && HasDevicePlaceholder(StringParam(params, key).value))
  }

  predicate AddressTargetValid(scope: Scope, params: Params) {
    match StringParam(params, "target")
    case None => false
    case Some(t) =>
      if t == "device.ip" || t == "device.mac" then scope != GlobalScope
      else t == "literal_ip" && ScopedParam(scope, params, "literal_ip")
  }

  predicate RuleMatchValid(scope: Scope, params: Params) {
    && StringParam(params, "table").Some?
    && StringParam(params, "table").value in ["filter", "nat", "mangle", "raw"]
    && match StringParam(params, "match_by")
       case None => false
       case Some(m) =>
         if m == "id" then ScopedParam(scope, params, "rule_id")
         else m == "comment" && ScopedParam(scope, params, "comment")
  }

  predicate ModeIn(params: Params, modes: seq<string>) {
    StringParam(params, "mode").Some? && StringParam(params, "mode").value in modes
  }

  /** `Action.Validate` */
  predicate ActionValid(kind: ActionKind, scope: Scope, params: Params) {
    match kind
    case AddressListMembership =>
      StringParam(params, "list").Some? && ModeIn(params, ["add", "remove"]) && AddressTargetValid(scope, params)
    case FirewallRuleToggle =>
      ModeIn(params, ["enable", "disable"]) && RuleMatchValid(scope, params)
  }

  /** `StateSource.Validate` */
  predicate SourceValid(kind: SourceKind, scope: Scope, params: Params) {
    match kind
    case AddressListContains => StringParam(params, "list").Some? && AddressTargetValid(scope, params)
    case FirewallRuleEnabled => RuleMatchValid(scope, params)
  }

  /** `resolveTargetAddress`, the same on the writing and on the reading side. */
  function ResolveAddress(target: Target, params: Params): Option<string> {
    match StringParam(params, "target")
    case None => None
    case Some(t) =>
      if t == "device.ip" then
        if target.device.None? || target.device.value.lastIp.None?
          || Trim(target.device.value.lastIp.value) == "" then None
        else Some(Trim(target.device.value.lastIp.value))
      else if t == "device.mac" then
        if target.device.None? || Trim(target.device.value.mac) == "" then None
        else Some(target.device.value.mac)
      else if t == "literal_ip" then StringParam(params, "literal_ip")
      else None
  }

  // ---- Execute and Read ----

  ghost function Execute(net: Net, kind: ActionKind, target: Target, params: Params): (Net, bool) {
    if !ActionValid(kind, target.scope, params) then (net, false)
    else
      match kind
      case AddressListMembership =>
        (match ResolveAddress(target, params)
         case None => (net, false)
         case Some(address) =>
           var list := StringParam(params, "list").value;
           var (after, s) := if StringParam(params, "mode") == Some("add") then Add(net, list, address)
             else Remove(net, list, address);
           (after, s == Fine))
      case FirewallRuleToggle =>
        var table := StringParam(params, "table").value;
        var disabled := StringParam(params, "mode") == Some("disable");
        var (after, s) :=
          if StringParam(params, "match_by") == Some("id")
          then SetById(net, table, StringParam(params, "rule_id").value, disabled)
          else SetByComment(net, table, StringParam(params, "comment").value, disabled);
        (after, s == Fine)
  }

  ghost function Read(net: Net, kind: SourceKind, target: Target, params: Params): (Net, Option<bool>) {
    if !SourceValid(kind, target.scope, params) then (net, None)
    else
      match kind
      case AddressListContains =>
        (match ResolveAddress(target, params)
         case None => (net, None)
         case Some(address) => Exists(net, StringParam(params, "list").value, address))
      case FirewallRuleEnabled =>
        var table := StringParam(params, "table").value;
        if StringParam(params, "match_by") == Some("id")
        then GetById(net, table, StringParam(params, "rule_id").value)
        else GetByComment(net, table, StringParam(params, "comment").value)
  }

  method ExecuteAction(c: Client, kind: ActionKind, target: Target, params: Params) returns (ok: bool)
    modifies c
    ensures (c.net, ok) == Execute(old(c.net), kind, target, params)
  {
    hide Add, Remove, SetById, SetByComment, ResolveAddress;
    if !ActionValid(kind, target.scope, params) { return false; }
    var s;
    match kind {
      case AddressListMembership =>
        var address := ResolveAddress(target, params);
        if address.None? { return false; }
        var list := StringParam(params, "list").value;
        if StringParam(params, "mode") == Some("add") {
          s := AddAddressToList(c, list, address.value);
        } else {
          s := RemoveAddressFromList(c, list, address.value);
        }
      case FirewallRuleToggle =>
        var table := StringParam(params, "table").value;
        var disabled := StringParam(params, "mode") == Some("disable");
        if StringParam(params, "match_by") == Some("id") {
          s := SetFirewallRuleDisabled(c, table, StringParam(params, "rule_id").value, disabled);
        } else {
          s := SetFirewallRulesDisabledByComment(c, table, StringParam(params, "comment").value, disabled);
        }
    }
    ok := s == Fine;
  }

  method ReadSource(c: Client, kind: SourceKind, target: Target, params: Params) returns (r: Option<bool>)
    modifies c
    ensures (c.net, r) == Read(old(c.net), kind, target, params)
  {
    hide Exists, GetById, GetByComment, ResolveAddress;
    if !SourceValid(kind, target.scope, params) { return None; }
    match kind {
      case AddressListContains =>
        var address := ResolveAddress(target, params);
        if address.None? { return None; }
        r := AddressExists(c, StringParam(params, "list").value, address.value);
      case FirewallRuleEnabled =>
        var table := StringParam(params, "table").value;
        if StringParam(params, "match_by") == Some("id") {
          r := GetFirewallRuleEnabled(c, table, StringParam(params, "rule_id").value);
        } else {
          r := GetFirewallRulesEnabledByComment(c, table, StringParam(params, "comment").value);
        }
    }
  }

  // ---- Facts ----

  /** A boolean about the device. Addresses are normalised, tables and comments trimmed. */
  datatype Fact =
    | Member(list: string, address: string)
    | RuleOn(table: string, id: string)
    | CommentOn(table: string, comment: string)

  ghost function Truth(d: Device, f: Fact): Option<bool> {
    match f
    case Member(list, address) => Some(exists e ::
      e in d.entries && e.list == list && NormalAddress(e.address) == address)
    case RuleOn(table, id) => RuleTruth(d, table, id)
    case CommentOn(table, comment) => CommentTruth(d, table, comment)
  }

  function RuleFact(params: Params): Option<Fact> {
    match (StringParam(params, "table"), StringParam(params, "match_by"))
    case (Some(table), Some(matchBy)) =>
      var key := if matchBy == "id" then "rule_id" else "comment";
      (match StringParam(params, key)
       case None => None
       case Some(v) => Some(if matchBy == "id" then RuleOn(NormalTable(table), v)
         else CommentOn(NormalTable(table), v)))
    case _ => None
  }

  function MemberFact(target: Target, params: Params): Option<Fact> {
    match (StringParam(params, "list"), ResolveAddress(target, params))
    case (Some(list), Some(address)) => Some(Member(list, NormalAddress(address)))
    case _ => None
  }

  /** The fact an action sets, and the value it sets it to. */
  function ActionFact(kind: ActionKind, target: Target, params: Params): Option<(Fact, bool)> {
    if !ActionValid(kind, target.scope, params) then None
    else
      var fact := if kind == AddressListMembership then MemberFact(target, params) else RuleFact(params);
      if fact.None? then None
      else Some((fact.value, StringParam(params, "mode") == Some("add")
        || StringParam(params, "mode") == Some("enable")))
  }

  /** The fact a state source reads. */
  function SourceFact(kind: SourceKind, target: Target, params: Params): Option<Fact> {
    if !SourceValid(kind, target.scope, params) then None
    else if kind == AddressListContains then MemberFact(target, params) else RuleFact(params)
  }

  /** Setting the first fact cannot change the second. */
  predicate Independent(f: Fact, g: Fact) {
    if f.Member? || g.Member? then f != g
    else if f.table != g.table then true
    else if f.RuleOn? then g.RuleOn? && f.id != g.id
    else g.CommentOn? && f.comment != g.comment
  }

  // ---- Writers ----

  lemma NormalTrim(address: string)
    ensures NormalAddress(Trim(address)) == NormalAddress(address)
  {
    LowerTrim(address);
    TrimIsTrimmed(Lower(address));
  }

  lemma ContainedIsTruth(d: Device, list: string, address: string)
    ensures Truth(d, Member(list, NormalAddress(address))) == Some(Contained(d.entries, list, Trim(address)))
  {
    NormalTrim(address);
  }

  lemma StringParamTrimmed(params: Params, key: string)
    ensures StringParam(params, key).Some? ==>
              Trim(StringParam(params, key).value) == StringParam(params, key).value
                && StringParam(params, key).value != ""
  {
    if key in params && params[key].Str? { TrimIsTrimmed(params[key].text); }
  }

  lemma ResolvedNotBlank(target: Target, params: Params)
    ensures ResolveAddress(target, params).Some? ==> Trim(ResolveAddress(target, params).value) != ""
  {
    StringParamTrimmed(params, "literal_ip");
    if target.device.Some? && target.device.value.lastIp.Some? { TrimIsTrimmed(target.device.value.lastIp.value); }
  }

  /** What a write may have done: kept the ids proper and every independent fact. */
  ghost predicate WriteEffect(before: Device, after: Device, f: Fact) {
    && DeviceOk(after)
    && forall g :: Independent(f, g) ==> Truth(after, g) == Truth(before, g)
  }

  lemma ListWriteEffect(before: Device, after: Device, list: string, address: string)
    requires DeviceOk(before) && EntriesOk(after.entries) && after.tables == before.tables
    requires Others(after.entries, list, Trim(address)) == Others(before.entries, list, Trim(address))
    ensures WriteEffect(before, after, Member(list, NormalAddress(address)))
  {
    hide NormalAddress, EntriesOk;
    NormalTrim(address);
    var f := Member(list, NormalAddress(address));
    forall g | Independent(f, g) ensures Truth(after, g) == Truth(before, g) {
      match g
      case Member(otherList, otherAddress) =>
        forall e: Entry | e.list == otherList && NormalAddress(e.address) == otherAddress
          ensures e in after.entries <==> e in before.entries
        {
          assert !Matches(e, list, Trim(address));
          assert e in Others(after.entries, list, Trim(address)) <==> e in Others(before.entries, list, Trim(address));
        }
      case _ =>
    }
  }

  lemma AddWriteEffect(net: Net, list: string, address: string)
    requires DeviceOk(net.device) && Trim(list) == list && list != "" && Trim(address) != ""
    ensures var (after, s) := Add(net, list, address);
            && WriteEffect(net.device, after.device, Member(list, NormalAddress(address)))
            && (s == Fine ==> Truth(after.device, Member(list, NormalAddress(address))) == Some(true))
  {
    hide Add, WriteEffect, EntriesOk;
    AddHasOneEffect(net, list, address);
    WithEntryOk(net.device.entries, list, Trim(address));
    var (after, s) := Add(net, list, address);
    ListWriteEffect(net.device, after.device, list, address);
    ContainedIsTruth(after.device, list, address);
    AddAnswer(net.device, list, Trim(address));
  }

  lemma RemoveWriteEffect(net: Net, list: string, address: string)
    requires DeviceOk(net.device) && Trim(list) == list && list != "" && Trim(address) != ""
    ensures var (after, s) := Remove(net, list, address);
            && WriteEffect(net.device, after.device, Member(list, NormalAddress(address)))
            && (s == Fine ==> Truth(after.device, Member(list, NormalAddress(address))) == Some(false))
  {
    hide Remove, WriteEffect, EntriesOk;
    RemoveHasOneEffect(net, list, address);
    var (after, s) := Remove(net, list, address);
    ListWriteEffect(net.device, after.device, list, address);
    ContainedIsTruth(after.device, list, address);
  }

  lemma {:induction false} EnabledByIdFlags(before: seq<Rule>, after: seq<Rule>, id: string)
    requires |after| == |before|
    requires forall i | 0 <= i < |before| ::
      after[i].id == before[i].id && (before[i].id == id ==> after[i] == before[i])
    ensures EnabledById(after, id) == EnabledById(before, id)
  {
    if before != [] {
      EnabledByIdFlags(before[1..], after[1..], id);
    }
  }

  lemma CommentFlags(before: Device, after: Device, table: string, comment: string)
    requires |RulesOf(after, table)| == |RulesOf(before, table)|
    requires forall i | 0 <= i < |RulesOf(before, table)| ::
               && RulesOf(after, table)[i].comment == RulesOf(before, table)[i].comment
               && (Trim(RulesOf(before, table)[i].comment) == comment
                  ==> RulesOf(after, table)[i] == RulesOf(before, table)[i])
    ensures CommentTruth(after, table, comment) == CommentTruth(before, table, comment)
  {
    hide Trim;
    var a, b := RulesOf(after, table), RulesOf(before, table);
    forall r: Rule | Trim(r.comment) == comment ensures r in a <==> r in b {
      if r in a {
        var i :| 0 <= i < |a| && a[i] == r;
        assert b[i] in b;
      }
      if r in b {
        var i :| 0 <= i < |b| && b[i] == r;
        assert a[i] in a;
      }
    }
  }

  lemma IdWriteEffect(before: Device, after: Device, table: string, id: string, disabled: bool)
    requires DeviceOk(before) && FlagsWithin(before, after, table, {id}, disabled)
    ensures WriteEffect(before, after, RuleOn(table, id))
  {
    FlagsKeepIds(before, after, table, {id}, disabled);
    hide DeviceOk;
    forall g | Independent(RuleOn(table, id), g) ensures Truth(after, g) == Truth(before, g) {
      match g
      case Member(_, _) =>
      case RuleOn(u, j) =>
        EnabledByIdFlags(RulesOf(before, u), RulesOf(after, u), j);
      case CommentOn(u, c) =>
        assert RulesOf(after, u) == RulesOf(before, u);
    }
  }

  lemma CommentWriteEffect(before: Device, after: Device, table: string, comment: string, disabled: bool)
    requires DeviceOk(before) && FlagsWithin(before, after, table, CommentIds(before, table, comment), disabled)
    ensures WriteEffect(before, after, CommentOn(table, comment))
  {
    var ids := CommentIds(before, table, comment);
    FlagsKeepIds(before, after, table, ids, disabled);
    forall g | Independent(CommentOn(table, comment), g) ensures Truth(after, g) == Truth(before, g) {
      match g
      case Member(_, _) =>
      case RuleOn(u, j) =>
        assert RulesOf(after, u) == RulesOf(before, u);
      case CommentOn(u, c) =>
        if u != table {
          assert RulesOf(after, u) == RulesOf(before, u);
        } else {
          OtherCommentsKeepIds(before, table, comment, c);
          CommentFlags(before, after, u, c);
        }
    }
  }

  lemma OtherCommentsKeepIds(d: Device, table: string, comment: string, other: string)
    requires DeviceOk(d) && comment != other
    ensures forall i | 0 <= i < |RulesOf(d, table)| ::
              Trim(RulesOf(d, table)[i].comment) == other ==> RulesOf(d, table)[i].id !in CommentIds(d, table, comment)
  {
    hide Trim, IdOk;
    var rules := RulesOf(d, table);
    forall i, r | 0 <= i < |rules| && r in rules && r.id == rules[i].id
      ensures r == rules[i]
    {
      var j :| 0 <= j < |rules| && rules[j] == r;
      assert i == j;
    }
  }

  /** Executing an action, faults and retries included, disturbs no independent fact; if it
      succeeds, its own fact has the value it was to set. */
  lemma ExecuteSetsItsFact(net: Net, kind: ActionKind, target: Target, params: Params)
    requires DeviceOk(net.device)
    ensures var (after, ok) := Execute(net, kind, target, params);
            match ActionFact(kind, target, params)
            case None => after == net && !ok
            case Some((f, value)) =>
              WriteEffect(net.device, after.device, f) && (ok ==> Truth(after.device, f) == Some(value))
  {
    hide Add, Remove, SetById, SetByComment, WriteEffect, Truth, ResolveAddress, DeviceOk, NormalAddress, NormalTable;
    StringParamTrimmed(params, "list");
    ResolvedNotBlank(target, params);
    StringParamTrimmed(params, "rule_id");
    StringParamTrimmed(params, "comment");
    if ActionValid(kind, target.scope, params) {
      match kind
      case AddressListMembership =>
        var address := ResolveAddress(target, params);
        if address.Some? {
          AddWriteEffect(net, StringParam(params, "list").value, address.value);
          RemoveWriteEffect(net, StringParam(params, "list").value, address.value);
        }
      case FirewallRuleToggle =>
        FirewallWriteEffect(net, params);
    }
  }

  lemma FirewallWriteEffect(net: Net, params: Params)
    requires DeviceOk(net.device) && RuleMatchValid(DeviceScope, params)
    ensures RuleFact(params).Some?
    ensures forall disabled ::
              var table := StringParam(params, "table").value;
              var (after, s) := if StringParam(params, "match_by") == Some("id")
                                then SetById(net, table, StringParam(params, "rule_id").value, disabled)
                                else SetByComment(net, table, StringParam(params, "comment").value, disabled);
              && WriteEffect(net.device, after.device, RuleFact(params).value)
              && (s == Fine ==> Truth(after.device, RuleFact(params).value) == Some(!disabled))
  {
    hide SetById, SetByComment, WriteEffect, FlagsWithin, DeviceOk, NormalTable, RuleTruth, CommentTruth, CommentIds;
    StringParamTrimmed(params, "rule_id");
    StringParamTrimmed(params, "comment");
    var table := StringParam(params, "table").value;
    forall disabled
      ensures var (after, s) := if StringParam(params, "match_by") == Some("id")
                                then SetById(net, table, StringParam(params, "rule_id").value, disabled)
                                else SetByComment(net, table, StringParam(params, "comment").value, disabled);
              && WriteEffect(net.device, after.device, RuleFact(params).value)
              && (s == Fine ==> Truth(after.device, RuleFact(params).value) == Some(!disabled))
    {
      if StringParam(params, "match_by") == Some("id") {
        var id := StringParam(params, "rule_id").value;
        SetByIdEffect(net, table, id, disabled);
        IdWriteEffect(net.device, SetById(net, table, id, disabled).0.device, NormalTable(table), id, disabled);
      } else {
        var comment := StringParam(params, "comment").value;
        SetByCommentEffect(net, table, comment, disabled);
        CommentWriteEffect(net.device, SetByComment(net, table, comment, disabled).0.device, NormalTable(table),
          comment, disabled);
      }
    }
  }

  // ---- Readers ----

  /** Reading changes nothing on the device, and a value read is the truth of the fact. */
  lemma ReadTellsTheTruth(net: Net, kind: SourceKind, target: Target, params: Params)
    requires DeviceOk(net.device)
    ensures Read(net, kind, target, params).0.device == net.device
    ensures Read(net, kind, target, params).1.Some? ==>
              && SourceFact(kind, target, params).Some?
              && Truth(net.device, SourceFact(kind, target, params).value) == Read(net, kind, target, params).1
  {
    hide Exists, GetById, GetByComment, ResolveAddress, NormalAddress, NormalTable, RuleTruth, CommentTruth, EntriesOk;
    StringParamTrimmed(params, "list");
    ResolvedNotBlank(target, params);
    StringParamTrimmed(params, "rule_id");
    StringParamTrimmed(params, "comment");
    if SourceValid(kind, target.scope, params) {
      match kind
      case AddressListContains =>
        var address := ResolveAddress(target, params);
        if address.Some? {
          ExistsIsTruth(net, StringParam(params, "list").value, address.value);
          ContainedIsTruth(net.device, StringParam(params, "list").value, address.value);
        }
      case FirewallRuleEnabled =>
        var table := StringParam(params, "table").value;
        if StringParam(params, "match_by") == Some("id") {
          GetByIdIsTruth(net, table, StringParam(params, "rule_id").value);
        } else {
          GetByCommentIsTruth(net, table, StringParam(params, "comment").value);
        }
    }
  }
}
