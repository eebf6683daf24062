/** Templates the store accepts, at which the results about runs apply or a promise fails. */
module Instances {
  import opened Text
  import opened Devices
  import opened Transport
  import opened AddressLists
  import opened FirewallRules
  import opened Adapters
  import opened Templates
  import opened Engine
  import opened SyncLaws
  import SyncRace
  import opened UserChanges
  import opened ValidationLaws

  function TheRegistry(): Registry {
    Registry(map["member" := AddressListMembership, "toggle" := FirewallRuleToggle],
             map["contains" := AddressListContains, "enabled" := FirewallRuleEnabled])
  }

  function OnOff(): Control {
    Control(Switch, [ControlOption("on", "On"), ControlOption("off", "Off")])
  }

  function OneAction(typeId: string, params: Params): StateConfig {
    StateConfig("", [ActionInstance("", typeId, params)])
  }

  function Membership(mode: string): Params {
    map["list" := Str("vpn"), "target" := Str("device.ip"), "mode" := Str(mode)]
  }

  /** Puts a device's current address on a list. */
  function VpnTemplate(): Template {
    Template("net.vpn", "VPN", "device", OnOff(),
             map["on" := OneAction("member", Membership("add")), "off" := OneAction("member", Membership("remove"))],
               "off",
             Some(Sync(true, "contains", Membership("add"), "on", "off", "external_truth", false)),
               Expose(false, "", ""))
  }

  function Rules(mode: string): Params {
    map["table" := Str("filter"), "match_by" := Str("comment"), "comment" := Str("kids"), "mode" := Str(mode)]
  }

  /** Switches all filter rules with one comment, the sync running the actions too. */
  function KidsTemplate(): Template {
    Template("net.kids", "Kids", "global", OnOff(),
             map["on" := OneAction("toggle", Rules("enable")), "off" := OneAction("toggle", Rules("disable"))], "off",
             Some(Sync(true, "enabled", Rules("enable"), "on", "off", "external_truth", true)), Expose(false, "", ""))
  }

  /** Maps "true" to a state whose id is padded with blanks. */
  function PaddedTemplate(): Template {
    Template("a.b", "Padded", "device", Control(Select, [ControlOption("p", "P"), ControlOption("q", "Q")]),
             map["p" := StateConfig("", []), "q" := StateConfig("", []), " r " := StateConfig("", [])], "p",
             Some(Sync(true, "contains", Membership("add"), " r ", "p", "external_truth", false)),
               Expose(false, "", ""))
  }

  // ---- The store accepts them ----

  lemma Plain(s: string)
    requires Trimmed(s)
    ensures Trim(s) == s
  {
    TrimIsTrimmed(s);
  }

  predicate Letters(s: string) {
    forall i | 0 <= i < |s| :: 'a' <= s[i] <= 'z'
  }

  lemma {:induction false} LettersFollow(s: string, some: bool)
    requires Letters(s) && (s != "" || some)
    ensures IdFrom(s, false, some)
  {
    if s != "" { LettersFollow(s[1..], true); }
  }

  lemma {:induction false} TwoWordId(head: string, tail: string, some: bool)
    requires Letters(head) && Letters(tail) && tail != "" && (head != "" || some)
    ensures IdFrom(head + "." + tail, true, some)
  {
    var id := head + "." + tail;
    if head == "" {
      assert id[1..] == tail;
      LettersFollow(tail, false);
    } else {
      assert id[1..] == head[1..] + "." + tail;
      TwoWordId(head[1..], tail, true);
    }
  }

  lemma OnOffValues()
    ensures ControlValues(OnOff()) == Some(["on", "off"])
  {
    assert OnOff().options[0].value == "on" && OnOff().options[1].value == "off";
    assert OnOff().options[0] in OnOff().options && OnOff().options[1] in OnOff().options;
  }

  lemma ModeStays()
    ensures !InternalTruth("external_truth") && Lower(Trim("external_truth")) == "external_truth"
  {
    ModeTwice();
    Plain("external_truth");
    LowerLetters();
  }

  lemma LowerLetters()
    ensures Lower("external_truth") == "external_truth"
  {}

  lemma ScopesStay()
    ensures NormalScope("device") == DeviceScope && NormalScope("global") == GlobalScope
  {
    Plain("device");
    Plain("global");
    assert "device"[0] != "global"[0];
  }

  lemma MembershipParams(mode: string)
    requires mode == "add" || mode == "remove"
    ensures ActionValid(AddressListMembership, DeviceScope, Membership(mode))
    ensures SourceValid(AddressListContains, DeviceScope, Membership(mode))
    ensures StringParam(Membership(mode), "list") == Some("vpn")
      && StringParam(Membership(mode), "target") == Some("device.ip")
    ensures StringParam(Membership(mode), "mode") == Some(mode)
  {
    hide Trim;
    Plain("vpn");
    Plain("device.ip");
    Plain(mode);
  }

  lemma RulesRead(mode: string)
    requires Trimmed(mode) && mode != ""
    ensures StringParam(Rules(mode), "table") == Some("filter")
      && StringParam(Rules(mode), "match_by") == Some("comment")
    ensures StringParam(Rules(mode), "comment") == Some("kids") && StringParam(Rules(mode), "mode") == Some(mode)
  {
    hide Trim;
    Plain("filter");
    Plain("comment");
    Plain("kids");
    Plain(mode);
  }

  lemma RulesParams(mode: string)
    requires mode == "enable" || mode == "disable"
    ensures ActionFact(FirewallRuleToggle, Target(GlobalScope, None), Rules(mode))
            == Some((CommentOn(NormalTable("filter"), "kids"), mode == "enable"))
    ensures SourceFact(FirewallRuleEnabled, Target(GlobalScope, None), Rules(mode))
      == Some(CommentOn(NormalTable("filter"), "kids"))
  {
    hide Trim, NormalTable, StringParam, Rules, HasDevicePlaceholder;
    RulesRead(mode);
    assert "comment" != "id" by { assert |"comment"| != |"id"|; }
    assert "disable"[0] != "enable"[0] && "add"[0] != "enable"[0] && "add"[0] != "disable"[0];
    NoPlaceholder();
  }

  lemma NoPlaceholder()
    ensures !HasDevicePlaceholder("kids")
  {
    var s := Lower("kids");
    assert !Contains(s[1..][1..][1..], "{{device.");
    assert !Contains(s[1..][1..], "{{device.");
    assert !Contains(s[1..], "{{device.");
  }

  /** What the store asks of a template with a sync, one requirement at a time. */
  lemma StoredWhen(t: Template, reg: Registry)
    requires Trim(t.id) == t.id && t.id != "" && IdFrom(t.id, true, false)
    requires Trim(t.title) == t.title && t.title != "" && t.scope == ScopeText(NormalScope(t.scope))
    requires Trim(t.defaultState) == t.defaultState && t.defaultState != "" && t.defaultState in t.states
    requires t.control.options != [] && ControlValues(t.control).Some?
    requires forall v | v in ControlValues(t.control).value :: v in t.states
    requires forall k | k in t.states ::
      t.states[k].title == "" && StateAccepted(k, t.states[k], NormalScope(t.scope), reg)
    requires t.sync.Some? && t.sync.value.mode == "external_truth"
    requires SyncProblem(t.sync.value, t.states, NormalScope(t.scope), reg).None? && !t.expose.enabled
    ensures Stored(t, reg)
  {
    hide Trim, Lower, IdFrom, ControlValues, SyncProblem, StateAccepted, InternalTruth;
    Plain("");
    Plain("global");
    Plain("device");
    ModeStays();
    assert Normalized(t).states == t.states;
  }

  lemma SyncAccepted(s: Sync, states: map<string, StateConfig>, scope: Scope, reg: Registry)
    requires Trim(s.sourceType) != "" && s.sourceType in reg.sources
    requires SourceValid(reg.sources[s.sourceType], scope, s.sourceParams)
    requires s.whenTrue in states && s.whenFalse in states && s.mode == "external_truth"
    ensures SyncProblem(s, states, scope, reg).None?
  {
    hide Trim, Lower, SourceValid;
    ModeStays();
  }

  lemma VpnIsStored()
    ensures Stored(VpnTemplate(), TheRegistry())
  {
    hide Trim, Lower, ActionValid, SourceValid, InternalTruth, NormalScope, IdFrom, ControlValues, SyncProblem, Stored;
    Plain("net.vpn");
    Plain("VPN");
    Plain("off");
    Plain("on");
    Plain("contains");
    TwoWordId("net", "vpn", false);
    assert "net" + "." + "vpn" == "net.vpn";
    OnOffValues();
    ScopesStay();
    MembershipParams("add");
    MembershipParams("remove");
    var t := VpnTemplate();
    SyncAccepted(t.sync.value, t.states, DeviceScope, TheRegistry());
    StoredWhen(t, TheRegistry());
  }

  lemma KidsIsStored()
    ensures Stored(KidsTemplate(), TheRegistry())
  {
    hide Trim, Lower, ActionValid, SourceValid, InternalTruth, NormalScope, IdFrom, ControlValues, SyncProblem, Stored;
    Plain("net.kids");
    Plain("Kids");
    Plain("off");
    Plain("on");
    Plain("enabled");
    TwoWordId("net", "kids", false);
    assert "net" + "." + "kids" == "net.kids";
    OnOffValues();
    ScopesStay();
    RulesValid("enable");
    RulesValid("disable");
    var t := KidsTemplate();
    SyncAccepted(t.sync.value, t.states, GlobalScope, TheRegistry());
    StoredWhen(t, TheRegistry());
  }

  lemma RulesValid(mode: string)
    requires mode == "enable" || mode == "disable"
    ensures ActionValid(FirewallRuleToggle, GlobalScope, Rules(mode))
      && SourceValid(FirewallRuleEnabled, GlobalScope, Rules(mode))
  {
    hide NormalTable, ActionValid, SourceValid;
    RulesParams(mode);
    ActionFactIsValid(FirewallRuleToggle, Target(GlobalScope, None), Rules(mode));
    SourceFactIsValid(FirewallRuleEnabled, Target(GlobalScope, None), Rules(mode));
  }

  lemma ActionFactIsValid(kind: ActionKind, target: Target, params: Params)
    requires ActionFact(kind, target, params).Some?
    ensures ActionValid(kind, target.scope, params)
  {}

  lemma SourceFactIsValid(kind: SourceKind, target: Target, params: Params)
    requires SourceFact(kind, target, params).Some?
    ensures SourceValid(kind, target.scope, params)
  {}

  lemma PaddedValues()
    ensures ControlValues(PaddedTemplate().control) == Some(["p", "q"])
  {
    hide Trim;
    Plain("p");
    Plain("q");
    assert TrimmedValues(PaddedTemplate().control.options) == ["p", "q"];
    assert "p"[0] != "q"[0];
  }

  lemma PaddedIsStored()
    ensures Stored(PaddedTemplate(), TheRegistry())
  {
    hide Trim, Lower, ActionValid, SourceValid, InternalTruth, NormalScope, IdFrom, ControlValues, SyncProblem, Stored;
    Plain("a.b");
    Plain("Padded");
    Plain("p");
    Plain("q");
    Plain("contains");
    TwoWordId("a", "b", false);
    assert "a" + "." + "b" == "a.b";
    PaddedValues();
    ScopesStay();
    MembershipParams("add");
    PaddedTrims();
    var t := PaddedTemplate();
    SyncAccepted(t.sync.value, t.states, DeviceScope, TheRegistry());
    StoredWhen(t, TheRegistry());
  }

  lemma PaddedTrims()
    ensures Trim(" r ") == "r"
  {
    assert " r "[1..] == "r ";
    assert "r "[..1] == "r";
  }

  // ---- A validated template that leaves its declared states ----

  /** The store accepts the padded template, and one sync of it stores a state that it does
      not declare. */
  lemma ValidTemplateStoresUndeclared() returns (w: World)
    ensures Stored(PaddedTemplate(), TheRegistry()) && !MappingDeclared(PaddedTemplate())
    ensures Sound(w, PaddedTemplate(), TheRegistry()) && !Declared(Synced(w).0.rows, PaddedTemplate())
  {
    hide Stored, Trim, InternalTruth, Sound, Declared, Synced;
    PaddedIsStored();
    PaddedTrims();
    ModeStays();
    assert "r" !in PaddedTemplate().states by { assert "r" != "p" && "r" != "q" && |"r"| != |" r "|; }
    w := UndeclaredMappingEscapes(PaddedTemplate(), TheRegistry(), true);
  }

  // ---- Changes that stand ----

  function VpnWorld(device: Device, devices: seq<View>, rows: map<Key, Row>): World {
    World(Net(device, [], 0, 0, [], []), [VpnTemplate()], devices, rows, TheRegistry(), true)
  }

  lemma VpnFact(v: View, mode: string)
    requires mode == "add" || mode == "remove"
    requires v.lastIp.Some? && !Blank(v.lastIp.value)
    ensures var f := Member("vpn", NormalAddress(Trim(v.lastIp.value)));
            && ActionFact(AddressListMembership, DeviceTarget(v).target, Membership(mode)) == Some((f, mode == "add"))
            && SourceFact(AddressListContains, DeviceTarget(v).target, Membership(mode)) == Some(f)
  {
    hide NormalAddress, Trim, ActionValid, SourceValid, NormalId;
    MembershipParams(mode);
    assert "remove"[0] != "enable"[0] && "remove"[0] != "add"[0];
  }

  lemma VpnPairs(device: Device, devices: seq<View>, rows: map<Key, Row>, v: View)
    requires DeviceOk(device) && CanonicalDevices(devices) && v in devices && v.lastIp.Some? && !Blank(v.lastIp.value)
    ensures var (w, f) := (VpnWorld(device, devices, rows), Member("vpn", NormalAddress(Trim(v.lastIp.value))));
            && Proper(w) && Pairs(w, VpnTemplate(), DeviceTarget(v), f)
               && NoOtherWriter(w, VpnTemplate(), DeviceTarget(v), f)
  {
    hide NormalAddress, Trim, ActionFact, SourceFact, DeviceOk, CanonicalDevices, DeviceTarget, NormalScope,
         SyncTargets, Spares, Membership;
    Plain("net.vpn");
    Plain("on");
    Plain("off");
    ScopesStay();
    VpnFact(v, "add");
    VpnFact(v, "remove");
    TargetListed(devices, v);
    assert "on" != "off" by { assert |"on"| != |"off"|; }
  }

  lemma TargetListed(devices: seq<View>, v: View)
    requires v in devices
    ensures DeviceTarget(v) in SyncTargets(devices, DeviceScope)
  {
    var i :| 0 <= i < |devices| && devices[i] == v;
    assert SyncTargets(devices, DeviceScope)[i] == DeviceTarget(v);
  }

  /** On every router and for every list of devices: switching the capability on for a device
      with an address puts that address on the list, where it stays through any number of
      syncs with the row "on". */
  lemma VpnStaysOn(device: Device, devices: seq<View>, v: View, n: nat)
    requires DeviceOk(device) && CanonicalDevices(devices) && v in devices && v.lastIp.Some? && !Blank(v.lastIp.value)
    ensures Stored(VpnTemplate(), TheRegistry())
    ensures Holds(SyncTimes(SetState(VpnWorld(device, devices, map[]), Ref(DeviceScope, v.mac), "net.vpn", "on").0, n),
                  VpnTemplate(), DeviceTarget(v), Member("vpn", NormalAddress(Trim(v.lastIp.value))), true)
  {
    hide NormalAddress, Trim, Proper, Pairs, NoOtherWriter, SetState, Holds, SyncTimes, Stored, DeviceOk,
         CanonicalDevices, NormalId;
    VpnIsStored();
    VpnPairs(device, devices, map[], v);
    Plain("net.vpn");
    Plain("on");
    Plain("off");
    assert "on" != "off" by { assert |"on"| != |"off"|; }
    HealthySetStands(VpnWorld(device, devices, map[]), VpnTemplate(), DeviceTarget(v),
                     Member("vpn", NormalAddress(Trim(v.lastIp.value))), true, Ref(DeviceScope, v.mac), "net.vpn",
                       "on", n);
  }

  /** The row says "on", the router's lists are empty: an out-of-band removal. For every list
      of devices the losses that interleaving can cause are possible here. */
  lemma VpnCanDrift(devices: seq<View>, v: View)
    requires CanonicalDevices(devices) && v in devices && v.lastIp.Some? && !Blank(v.lastIp.value)
    ensures SyncRace.Drifted(
      VpnWorld(Device([], map[]), devices, map[KeyOf(DeviceTarget(v).ref, "net.vpn") := Row(true, "on")]),
      VpnTemplate(), DeviceTarget(v), Member("vpn", NormalAddress(Trim(v.lastIp.value))))
  {
    hide NormalAddress, Trim, Proper, Pairs, NoOtherWriter, CanonicalDevices, NormalId, InternalTruth, DeviceTarget;
    var rows := map[KeyOf(DeviceTarget(v).ref, "net.vpn") := Row(true, "on")];
    VpnPairs(Device([], map[]), devices, rows, v);
    Plain("on");
    ModeStays();
  }

  function KidsWorld(device: Device): World {
    World(Net(device, [], 0, 0, [], []), [KidsTemplate()], [], map[], TheRegistry(), true)
  }

  function KidsTarget(): SyncTarget { SyncTarget(Ref(GlobalScope, ""), Target(GlobalScope, None)) }

  lemma KidsPairs(device: Device)
    requires DeviceOk(device)
    ensures var (w, f) := (KidsWorld(device), CommentOn(NormalTable("filter"), "kids"));
            && Proper(w) && Pairs(w, KidsTemplate(), KidsTarget(), f)
               && NoOtherWriter(w, KidsTemplate(), KidsTarget(), f)
  {
    hide NormalTable, Trim, ActionFact, SourceFact, DeviceOk, NormalScope, Independent;
    Plain("net.kids");
    Plain("on");
    Plain("off");
    ScopesStay();
    RulesParams("enable");
    RulesParams("disable");
    assert "on" != "off" by { assert |"on"| != |"off"|; }
  }

  /** On every router with a filter rule of that comment: switched on, the capability stays on
      in its row and on all rules with the comment through any number of syncs. */
  lemma KidsRulesStay(device: Device, n: nat)
    requires DeviceOk(device) && CommentTruth(device, NormalTable("filter"), "kids").Some?
    ensures Stored(KidsTemplate(), TheRegistry())
    ensures Holds(SyncTimes(SetState(KidsWorld(device), Ref(GlobalScope, ""), "net.kids", "on").0, n),
                  KidsTemplate(), KidsTarget(), CommentOn(NormalTable("filter"), "kids"), true)
  {
    hide NormalTable, Trim, Proper, Pairs, NoOtherWriter, SetState, Holds, SyncTimes, Stored, DeviceOk, CommentTruth;
    KidsIsStored();
    KidsPairs(device);
    Plain("net.kids");
    Plain("on");
    Plain("off");
    assert "on" != "off" by { assert |"on"| != |"off"|; }
    HealthySetStands(KidsWorld(device), KidsTemplate(), KidsTarget(), CommentOn(NormalTable("filter"), "kids"), true,
                     Ref(GlobalScope, ""), "net.kids", "on", n);
  }
}
