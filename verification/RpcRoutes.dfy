/** Which route an RPC client configuration takes, and which configurations count as disabled. */
module RpcRoutes {
  import opened Options
  import opened YamlNodes
  import opened YamlPaths

  /** The decoding and address checks the decision relies on. */
  datatype Checks = Checks(
    blank: string -> bool,
    spaced: string -> bool,
    address: string -> bool,
    long: Tree -> bool,
    number: Tree -> Option<int>)

  datatype Text = Text(value: string) | BadText

  datatype Texts = Texts(values: seq<string>) | BadTexts

  datatype Verdict = Active | Inactive | Invalid

  const NULL_TAG := "!!null"

  function MappingValue(t: Tree, key: string): Option<Tree> {
    if t.kind != MappingKind then None
    else
      var i := Position(t.children, key, 0);
      if i < 0 then None else Some(t.children[i + 1])
  }

  function ValueIn(t: Option<Tree>, key: string): Option<Tree> {
    if t.None? then None else MappingValue(t.value, key)
  }

  function OptionalString(t: Option<Tree>, c: Checks): Text {
    if t.None? then Text("")
    else if t.value.kind != ScalarKind || t.value.tag != "!!str" then BadText
    else if t.value.value != "" && c.blank(t.value.value) then BadText
    else Text(t.value.value)
  }

  function Entries(ts: seq<Tree>, c: Checks): Texts {
    if ts == [] then Texts([])
    else
      var first := OptionalString(Some(ts[0]), c);
      if first.BadText? || first.value == "" || c.spaced(first.value) then BadTexts
      else
        var rest := Entries(ts[1..], c);
        if rest.BadTexts? then BadTexts else Texts([first.value] + rest.values)
  }

  function StringSequence(t: Option<Tree>, c: Checks): Texts {
    if t.None? then Texts([])
    else if t.value.kind != SequenceKind then BadTexts
    else Entries(t.value.children, c)
  }

  predicate AllAddresses(values: seq<string>, c: Checks) {
    forall i | 0 <= i < |values| :: c.address(values[i])
  }

  predicate ConsulTyped(consul: Option<Tree>, c: Checks) {
    consul.Some? ==>
      && consul.value.kind == MappingKind
      && OptionalString(ValueIn(consul, "host"), c).Text?
      && OptionalString(ValueIn(consul, "key"), c).Text?
      && var port := ValueIn(consul, "port");
      (port.Some? ==> port.value.kind == ScalarKind && c.number(port.value).Some?)
  }

  predicate EtcdTyped(etcd: Option<Tree>, c: Checks) {
    etcd.Some? ==>
      && etcd.value.kind == MappingKind
      && StringSequence(ValueIn(etcd, "hosts"), c).Texts?
      && OptionalString(ValueIn(etcd, "key"), c).Text?
  }

  /** Every field that is present has the type the client expects. */
  predicate TypedShape(t: Tree, c: Checks) {
    && OptionalString(MappingValue(t, "discovType"), c).Text?
    && OptionalString(MappingValue(t, "target"), c).Text?
    && OptionalString(MappingValue(t, "app"), c).Text?
    && OptionalString(MappingValue(t, "token"), c).Text?
    && var timeout := MappingValue(t, "timeout");
    && (timeout.Some? ==> timeout.value.kind == ScalarKind && c.long(timeout.value))
    && StringSequence(MappingValue(t, "endpoints"), c).Texts?
    && StringSequence(MappingValue(t, "endpints"), c).Texts?
    && ConsulTyped(MappingValue(t, "consul"), c)
    && EtcdTyped(MappingValue(t, "etcd"), c)
  }

  predicate RequiredString(t: Option<Tree>, c: Checks) {
    var text := OptionalString(t, c);
    text.Text? && text.value != "" && !c.spaced(text.value)
  }

  predicate ConsulComplete(t: Option<Tree>, c: Checks) {
    && t.Some? && t.value.kind == MappingKind
    && RequiredString(ValueIn(t, "host"), c)
    && var port := ValueIn(t, "port");
    && port.Some? && port.value.kind == ScalarKind && c.number(port.value).Some?
    && 1 <= c.number(port.value).value <= 65535
    && RequiredString(ValueIn(t, "key"), c)
  }

  function EtcdVerdict(t: Option<Tree>, c: Checks): Verdict {
    if t.None? then Inactive
    else if t.value.kind != MappingKind then Invalid
    else
      var hosts, key := StringSequence(ValueIn(t, "hosts"), c), OptionalString(ValueIn(t, "key"), c);
      if hosts.BadTexts? || key.BadText? then Invalid
      else if hosts.values == [] && key.value == "" then Inactive
      else if hosts.values == [] || key.value == "" || !AllAddresses(hosts.values, c) || c.spaced(key.value)
        then Invalid
      else Active
  }

  /** An endpoint list under the spelling the client does not read. */
  predicate Misspelled(t: Tree, endpointKey: string, key: string, c: Checks) {
    key != endpointKey && MappingValue(t, key).Some? && StringSequence(MappingValue(t, key), c) != Texts([])
  }

  /** Consul, then direct endpoints, then the target, then Etcd: the first that is configured decides. */
  function Validate(node: Option<Tree>, endpointKey: string, keyUnknown: bool, c: Checks): Verdict {
    if node.None? || node.value.tag == NULL_TAG then Inactive
    else if node.value.kind != MappingKind || !TypedShape(node.value, c) then Invalid
    else
      var t := node.value;
      var discovType := OptionalString(MappingValue(t, "discovType"), c).value;
      if discovType != "" && discovType != "consul" && discovType != "etcd" then Invalid
      else if discovType == "consul" then if ConsulComplete(MappingValue(t, "consul"), c) then Active else Invalid
      else if keyUnknown && (StringSequence(MappingValue(t, "endpoints"), c) != Texts([])
        || StringSequence(MappingValue(t, "endpints"), c) != Texts([])) then Invalid
      else if !keyUnknown && StringSequence(MappingValue(t, endpointKey), c).BadTexts? then Invalid
      else if !keyUnknown && StringSequence(MappingValue(t, endpointKey), c).values != [] then
        if AllAddresses(StringSequence(MappingValue(t, endpointKey), c).values, c) then Active else Invalid
      else
        var target := OptionalString(MappingValue(t, "target"), c).value;
        if target != "" then if c.address(target) then Active else Invalid
        else
          var etcd := EtcdVerdict(MappingValue(t, "etcd"), c);
          if etcd != Inactive then etcd
          else if Misspelled(t, endpointKey, "endpoints", c) || Misspelled(t, endpointKey, "endpints", c) then Invalid
          else if discovType == "etcd" then Invalid
          else Inactive
  }

  // ---- The decision, told from what a document says ----

  /** A mapping's content, decoded; what is absent is empty. */
  datatype ConsulSetting = ConsulSetting(host: string, port: Option<Tree>, key: string)

  datatype EtcdSetting = EtcdSetting(hosts: seq<string>, key: string)

  datatype Setting = Setting(discovType: string, target: string, endpoints: seq<string>, endpints: seq<string>,
    consul: Option<ConsulSetting>, etcd: Option<EtcdSetting>)

  predicate SaysText(v: Option<Tree>, text: string) {
    if v.None? then text == "" else v.value.kind == ScalarKind && v.value.tag == "!!str" && v.value.value == text
  }

  predicate SaysTexts(v: Option<Tree>, texts: seq<string>) {
    if v.None? then texts == []
    else
      && v.value.kind == SequenceKind && |v.value.children| == |texts|
      && forall i | 0 <= i < |texts| :: SaysText(Some(v.value.children[i]), texts[i])
  }

  predicate SaysConsul(v: Option<Tree>, consul: Option<ConsulSetting>) {
    if v.None? then consul.None?
    else
      && v.value.kind == MappingKind && consul.Some?
      && SaysText(MappingValue(v.value, "host"), consul.value.host)
      && MappingValue(v.value, "port") == consul.value.port
      && SaysText(MappingValue(v.value, "key"), consul.value.key)
  }

  predicate SaysEtcd(v: Option<Tree>, etcd: Option<EtcdSetting>) {
    if v.None? then etcd.None?
    else
      && v.value.kind == MappingKind && etcd.Some?
      && SaysTexts(MappingValue(v.value, "hosts"), etcd.value.hosts)
      && SaysText(MappingValue(v.value, "key"), etcd.value.key)
  }

  /** The mapping says this, among whatever else it says. */
  predicate Says(t: Tree, s: Setting) {
    && t.kind == MappingKind
    && SaysText(MappingValue(t, "discovType"), s.discovType) && SaysText(MappingValue(t, "target"), s.target)
    && SaysTexts(MappingValue(t, "endpoints"), s.endpoints) && SaysTexts(MappingValue(t, "endpints"), s.endpints)
    && SaysConsul(MappingValue(t, "consul"), s.consul) && SaysEtcd(MappingValue(t, "etcd"), s.etcd)
  }

  /** Texts are empty or not blank, list entries are neither empty nor contain white space. */
  predicate PlainText(text: string, c: Checks) {
    text != "" ==> !c.blank(text)
  }

  predicate PlainTexts(texts: seq<string>, c: Checks) {
    forall i | 0 <= i < |texts| :: texts[i] != "" && !c.blank(texts[i]) && !c.spaced(texts[i])
  }

  /** Fields the decision does not look into still have their types. */
  ghost predicate OtherFieldsTyped(t: Tree, c: Checks) {
    && (forall k | k in {"app", "token"} && MappingValue(t, k).Some? ::
          exists text :: SaysText(MappingValue(t, k), text) && PlainText(text, c))
    && var timeout := MappingValue(t, "timeout");
    timeout.Some? ==> timeout.value.kind == ScalarKind && c.long(timeout.value)
  }

  /** A mapping whose fields all have the types the client expects, and what it says. */
  ghost predicate WellTyped(t: Tree, s: Setting, c: Checks) {
    && Says(t, s) && OtherFieldsTyped(t, c)
    && PlainText(s.discovType, c) && PlainText(s.target, c) && PlainTexts(s.endpoints, c) && PlainTexts(s.endpints, c)
    && (s.consul.Some? ==> PlainConsul(s.consul.value, c))
    && (s.etcd.Some? ==> PlainTexts(s.etcd.value.hosts, c) && PlainText(s.etcd.value.key, c))
  }

  predicate PlainConsul(consul: ConsulSetting, c: Checks) {
    && PlainText(consul.host, c) && PlainText(consul.key, c)
    && (consul.port.Some? ==> consul.port.value.kind == ScalarKind && c.number(consul.port.value).Some?)
  }

  predicate ConsulUsable(s: Setting, c: Checks) {
    && s.consul.Some?
    && s.consul.value.host != "" && !c.spaced(s.consul.value.host)
    && s.consul.value.key != "" && !c.spaced(s.consul.value.key)
    && s.consul.value.port.Some? && c.number(s.consul.value.port.value).Some?
    && 0 < c.number(s.consul.value.port.value).value < 65536
  }

  predicate EtcdUsable(s: Setting, c: Checks) {
    && s.etcd.Some? && s.etcd.value.hosts != [] && s.etcd.value.key != "" && !c.spaced(s.etcd.value.key)
    && forall host | host in s.etcd.value.hosts :: c.address(host)
  }

  /** The endpoints under the spelling the client reads, and those under the other one. */
  function Direct(s: Setting, endpointKey: string): seq<string> {
    if endpointKey == "endpoints" then s.endpoints else s.endpints
  }

  function Indirect(s: Setting, endpointKey: string): seq<string> {
    if endpointKey == "endpoints" then s.endpints else s.endpoints
  }

  /** Consul discovery decides before everything else, whatever else is there. */
  lemma ConsulDecides(t: Tree, s: Setting, endpointKey: string, keyUnknown: bool, c: Checks)
    requires WellTyped(t, s, c) && t.tag != NULL_TAG && s.discovType == "consul"
    ensures Validate(Some(t), endpointKey, keyUnknown, c) == if ConsulUsable(s, c) then Active else Invalid
  {
    ShapeTyped(t, s, c);
  }

  /** No other discovery is known. */
  lemma UnknownDiscovery(t: Tree, s: Setting, endpointKey: string, keyUnknown: bool, c: Checks)
    requires WellTyped(t, s, c) && t.tag != NULL_TAG && s.discovType !in {"", "consul", "etcd"}
    ensures Validate(Some(t), endpointKey, keyUnknown, c) == Invalid
  {
    ShapeTyped(t, s, c);
  }

  /** Endpoints decide before target and Etcd; while their spelling is unknown, there must not be any. */
  lemma EndpointsDecide(t: Tree, s: Setting, endpointKey: string, keyUnknown: bool, c: Checks)
    requires WellTyped(t, s, c) && t.tag != NULL_TAG && s.discovType in {"", "etcd"}
    requires endpointKey in {"endpoints", "endpints"}
    ensures keyUnknown && (s.endpoints != [] || s.endpints != []) ==>
      Validate(Some(t), endpointKey, keyUnknown, c) == Invalid
    ensures !keyUnknown && Direct(s, endpointKey) != [] ==>
      Validate(Some(t), endpointKey, keyUnknown, c) ==
        if forall a | a in Direct(s, endpointKey) :: c.address(a) then Active else Invalid
  {
    hide TypedShape, WellTyped, Says, SaysTexts, EtcdVerdict, Misspelled, ConsulComplete, ConsulUsable, OptionalString,
      StringSequence, MappingValue;
    ShapeTyped(t, s, c);
  }

  /** No endpoints that could be read, and none of unknown spelling. */
  predicate NoEndpoints(s: Setting, endpointKey: string, keyUnknown: bool) {
    if keyUnknown then s.endpoints == [] && s.endpints == [] else Direct(s, endpointKey) == []
  }

  /** Then the target decides, whatever Etcd says. */
  lemma TargetDecides(t: Tree, s: Setting, endpointKey: string, keyUnknown: bool, c: Checks)
    requires WellTyped(t, s, c) && t.tag != NULL_TAG && s.discovType in {"", "etcd"}
    requires endpointKey in {"endpoints", "endpints"} && NoEndpoints(s, endpointKey, keyUnknown) && s.target != ""
    ensures Validate(Some(t), endpointKey, keyUnknown, c) == if c.address(s.target) then Active else Invalid
  {
    hide TypedShape, WellTyped, Says, SaysTexts, EtcdVerdict, Misspelled, ConsulComplete, ConsulUsable, OptionalString,
      StringSequence, MappingValue;
    ShapeTyped(t, s, c);
  }

  /** Then Etcd, once it has hosts or a key. */
  lemma EtcdDecides(t: Tree, s: Setting, endpointKey: string, keyUnknown: bool, c: Checks)
    requires WellTyped(t, s, c) && t.tag != NULL_TAG && s.discovType in {"", "etcd"}
    requires endpointKey in {"endpoints", "endpints"} && NoEndpoints(s, endpointKey, keyUnknown) && s.target == ""
    requires s.etcd.Some? && (s.etcd.value.hosts != [] || s.etcd.value.key != "")
    ensures Validate(Some(t), endpointKey, keyUnknown, c) == if EtcdUsable(s, c) then Active else Invalid
  {
    ShapeTyped(t, s, c);
    EtcdTold(t, s, c);
    hide TypedShape, WellTyped, Says, SaysTexts, EtcdVerdict;
  }

  /** With no route at all the client is inactive, unless a route was meant. */
  lemma NothingConfigured(t: Tree, s: Setting, endpointKey: string, keyUnknown: bool, c: Checks)
    requires WellTyped(t, s, c) && t.tag != NULL_TAG && s.discovType in {"", "etcd"}
    requires endpointKey in {"endpoints", "endpints"} && NoEndpoints(s, endpointKey, keyUnknown) && s.target == ""
    requires s.etcd.Some? ==> s.etcd.value.hosts == [] && s.etcd.value.key == ""
    ensures Validate(Some(t), endpointKey, keyUnknown, c) ==
      if s.discovType == "etcd" || Indirect(s, endpointKey) != [] then Invalid else Inactive
  {
    ShapeTyped(t, s, c);
    EtcdTold(t, s, c);
    hide TypedShape, WellTyped, Says, SaysTexts, EtcdVerdict;
  }

  /** The shape is right, and its parts read as what the mapping says. */
  lemma ShapeTyped(t: Tree, s: Setting, c: Checks)
    requires WellTyped(t, s, c)
    ensures t.kind == MappingKind && TypedShape(t, c)
    ensures OptionalString(MappingValue(t, "discovType"), c) == Text(s.discovType)
    ensures OptionalString(MappingValue(t, "target"), c) == Text(s.target)
    ensures StringSequence(MappingValue(t, "endpoints"), c) == Texts(s.endpoints)
    ensures StringSequence(MappingValue(t, "endpints"), c) == Texts(s.endpints)
    ensures MappingValue(t, "endpoints").None? ==> s.endpoints == []
    ensures MappingValue(t, "endpints").None? ==> s.endpints == []
    ensures ConsulComplete(MappingValue(t, "consul"), c) <==> ConsulUsable(s, c)
  {
    hide StringSequence, OptionalString, SaysTexts, SaysText, PlainText, PlainTexts, ConsulTyped, EtcdTyped,
      ConsulComplete, ConsulUsable, SaysConsul, SaysEtcd, PlainConsul;
    TextsTold(MappingValue(t, "endpoints"), s.endpoints, c);
    TextsTold(MappingValue(t, "endpints"), s.endpints, c);
    TextsAbsent(MappingValue(t, "endpoints"), s.endpoints);
    TextsAbsent(MappingValue(t, "endpints"), s.endpints);
    TextTold(MappingValue(t, "discovType"), s.discovType, c);
    TextTold(MappingValue(t, "target"), s.target, c);
    forall k | k in {"app", "token"} ensures OptionalString(MappingValue(t, k), c).Text? {
      OtherText(t, k, c);
    }
    ConsulTold(MappingValue(t, "consul"), s, c);
    EtcdShape(MappingValue(t, "etcd"), s.etcd, c);
  }

  lemma TextsAbsent(v: Option<Tree>, texts: seq<string>)
    requires SaysTexts(v, texts)
    ensures v.None? ==> texts == []
  {
  }

  lemma OtherText(t: Tree, k: string, c: Checks)
    requires OtherFieldsTyped(t, c) && k in {"app", "token"}
    ensures OptionalString(MappingValue(t, k), c).Text?
  {
    if MappingValue(t, k).Some? {
      var text :| SaysText(MappingValue(t, k), text) && PlainText(text, c);
      TextTold(MappingValue(t, k), text, c);
    }
  }

  lemma ConsulTold(v: Option<Tree>, s: Setting, c: Checks)
    requires SaysConsul(v, s.consul) && (s.consul.Some? ==> PlainConsul(s.consul.value, c))
    ensures ConsulTyped(v, c) && (ConsulComplete(v, c) <==> ConsulUsable(s, c))
  {
    hide OptionalString, SaysText, PlainText;
    if s.consul.Some? {
      TextTold(ValueIn(v, "host"), s.consul.value.host, c);
      TextTold(ValueIn(v, "key"), s.consul.value.key, c);
    }
  }

  lemma EtcdShape(v: Option<Tree>, etcd: Option<EtcdSetting>, c: Checks)
    requires SaysEtcd(v, etcd)
    requires etcd.Some? ==> PlainTexts(etcd.value.hosts, c) && PlainText(etcd.value.key, c)
    ensures EtcdTyped(v, c)
  {
    if etcd.Some? {
      TextsTold(ValueIn(v, "hosts"), etcd.value.hosts, c);
      TextTold(ValueIn(v, "key"), etcd.value.key, c);
    }
  }

  lemma TextTold(v: Option<Tree>, text: string, c: Checks)
    requires SaysText(v, text) && PlainText(text, c)
    ensures OptionalString(v, c) == Text(text)
  {
  }

  lemma TextsTold(v: Option<Tree>, texts: seq<string>, c: Checks)
    requires SaysTexts(v, texts) && PlainTexts(texts, c)
    ensures StringSequence(v, c) == Texts(texts)
  {
    if v.Some? { EntriesTold(v.value.children, texts, c); }
  }

  lemma {:induction false} EntriesTold(ts: seq<Tree>, texts: seq<string>, c: Checks)
    requires |ts| == |texts| && (forall i | 0 <= i < |ts| :: SaysText(Some(ts[i]), texts[i])) && PlainTexts(texts, c)
    ensures Entries(ts, c) == Texts(texts)
    decreases |ts|
  {
    if ts != [] {
      EntriesTold(ts[1..], texts[1..], c);
      TextTold(Some(ts[0]), texts[0], c);
      assert texts == [texts[0]] + texts[1..];
    }
  }

  lemma EtcdTold(t: Tree, s: Setting, c: Checks)
    requires WellTyped(t, s, c)
    ensures EtcdVerdict(MappingValue(t, "etcd"), c) ==
      if s.etcd.None? || (s.etcd.value.hosts == [] && s.etcd.value.key == "") then Inactive
      else if EtcdUsable(s, c) then Active else Invalid
  {
    if s.etcd.Some? {
      TextsTold(ValueIn(MappingValue(t, "etcd"), "hosts"), s.etcd.value.hosts, c);
      TextTold(ValueIn(MappingValue(t, "etcd"), "key"), s.etcd.value.key, c);
    }
  }

  /** A mapping of any other shape is refused: a document that is not says something well typed. */
  lemma OnlyWellTyped(t: Tree, endpointKey: string, keyUnknown: bool, c: Checks) returns (s: Setting)
    requires t.tag != NULL_TAG && Validate(Some(t), endpointKey, keyUnknown, c) != Invalid
    ensures WellTyped(t, s, c)
  {
    hide Validate, ConsulComplete, EtcdVerdict, ConsulTyped, EtcdTyped, OptionalString, StringSequence, SaysText,
      SaysTexts,
      SaysConsul, SaysEtcd, PlainText, PlainTexts, PlainConsul, MappingValue;
    ShapeNeeded(t, endpointKey, keyUnknown, c);
    forall k | k in {"app", "token"} && MappingValue(t, k).Some?
      ensures exists text :: SaysText(MappingValue(t, k), text) && PlainText(text, c)
    {
      TextOf(MappingValue(t, k), c);
    }
    TextOf(MappingValue(t, "discovType"), c);
    TextOf(MappingValue(t, "target"), c);
    TextsOf(MappingValue(t, "endpoints"), c);
    TextsOf(MappingValue(t, "endpints"), c);
    var consul := ConsulOf(MappingValue(t, "consul"), c);
    var etcd := EtcdOf(MappingValue(t, "etcd"), c);
    s := Setting(OptionalString(MappingValue(t, "discovType"), c).value,
      OptionalString(MappingValue(t, "target"), c).value,
      StringSequence(MappingValue(t, "endpoints"), c).values, StringSequence(MappingValue(t, "endpints"), c).values,
      consul, etcd);
  }

  lemma ConsulOf(v: Option<Tree>, c: Checks) returns (consul: Option<ConsulSetting>)
    requires ConsulTyped(v, c)
    ensures SaysConsul(v, consul) && (consul.Some? ==> PlainConsul(consul.value, c))
  {
    hide OptionalString, SaysText, PlainText;
    if v.None? { return None; }
    TextOf(ValueIn(v, "host"), c);
    TextOf(ValueIn(v, "key"), c);
    consul := Some(ConsulSetting(OptionalString(ValueIn(v, "host"), c).value, ValueIn(v, "port"),
      OptionalString(ValueIn(v, "key"), c).value));
  }

  lemma EtcdOf(v: Option<Tree>, c: Checks) returns (etcd: Option<EtcdSetting>)
    requires EtcdTyped(v, c)
    ensures SaysEtcd(v, etcd)
    ensures etcd.Some? ==> PlainTexts(etcd.value.hosts, c) && PlainText(etcd.value.key, c)
  {
    hide OptionalString, StringSequence, SaysText, SaysTexts, PlainText, PlainTexts;
    if v.None? { return None; }
    TextsOf(ValueIn(v, "hosts"), c);
    TextOf(ValueIn(v, "key"), c);
    etcd := Some(EtcdSetting(StringSequence(ValueIn(v, "hosts"), c).values,
      OptionalString(ValueIn(v, "key"), c).value));
  }

  lemma ShapeNeeded(t: Tree, endpointKey: string, keyUnknown: bool, c: Checks)
    requires t.tag != NULL_TAG && Validate(Some(t), endpointKey, keyUnknown, c) != Invalid
    ensures t.kind == MappingKind && TypedShape(t, c)
  {
  }

  lemma TextOf(v: Option<Tree>, c: Checks)
    ensures OptionalString(v, c).Text? ==>
      SaysText(v, OptionalString(v, c).value) && PlainText(OptionalString(v, c).value, c)
  {
  }

  lemma TextsOf(v: Option<Tree>, c: Checks)
    ensures StringSequence(v, c).Texts? ==>
      SaysTexts(v, StringSequence(v, c).values) && PlainTexts(StringSequence(v, c).values, c)
  {
    if StringSequence(v, c).Texts? && v.Some? { EntriesOf(v.value.children, c); }
  }

  lemma {:induction false} EntriesOf(ts: seq<Tree>, c: Checks)
    requires Entries(ts, c).Texts?
    ensures var texts := Entries(ts, c).values;
      |texts| == |ts| && PlainTexts(texts, c) && forall i | 0 <= i < |ts| :: SaysText(Some(ts[i]), texts[i])
    decreases |ts|
  {
    if ts != [] {
      EntriesOf(ts[1..], c);
      TextOf(Some(ts[0]), c);
    }
  }

  /** What is not there, or null, is inactive. */
  lemma AbsentInactive(node: Option<Tree>, endpointKey: string, keyUnknown: bool, c: Checks)
    requires node.None? || node.value.tag == "!!null"
    ensures Validate(node, endpointKey, keyUnknown, c) == Inactive
  {
  }

  // ---- Disabled configurations ----

  predicate EmptyString(t: Option<Tree>) {
    t.Some? ==>
      t.value.kind == ScalarKind
      && (t.value.tag == NULL_TAG || (t.value.tag == "!!str" && t.value.value == ""))
  }

  predicate EmptySequence(t: Option<Tree>) {
    t.Some? ==> t.value.tag == NULL_TAG || (t.value.kind == SequenceKind && t.value.children == [])
  }

  /** What a binding must look like before the client may be disabled: no route is left in it. */
  predicate Disabled(node: Option<Tree>) {
    node.None? || (node.value.kind == ScalarKind && node.value.tag == NULL_TAG) || (
      && node.value.kind == MappingKind
      && EmptyString(MappingValue(node.value, "discovType"))
      && EmptyString(MappingValue(node.value, "target"))
      && EmptySequence(MappingValue(node.value, "endpoints"))
      && EmptySequence(MappingValue(node.value, "endpints"))
      && var etcd := MappingValue(node.value, "etcd");
      (etcd.Some? && etcd.value.tag != NULL_TAG ==>
        && etcd.value.kind == MappingKind
        && EmptySequence(ValueIn(etcd, "hosts"))
        && var key := ValueIn(etcd, "key");
        (key.Some? && key.value.tag != NULL_TAG ==>
          key.value.kind == ScalarKind && key.value.tag == "!!str" && key.value.value == "")))
  }

  /** A collection with content that carries an explicit null tag, which the disable check takes for nothing. */
  predicate NullTagged(t: Option<Tree>, kind: Kind) {
    t.Some? && t.value.tag == NULL_TAG && t.value.kind == kind && t.value.children != []
  }

  /**
   A configuration accepted as disabled and free of errors is active in one case only: its endpoint
   list, or its Etcd mapping with hosts, has content under an explicit null tag.
   */
  lemma DisabledIsInactiveExactly(node: Option<Tree>, endpointKey: string, keyUnknown: bool, c: Checks)
    requires endpointKey == "endpoints" || endpointKey == "endpints"
    requires Disabled(node) && Validate(node, endpointKey, keyUnknown, c) != Invalid
    ensures Validate(node, endpointKey, keyUnknown, c) == Active <==>
      && node.Some? && node.value.kind == MappingKind && node.value.tag != NULL_TAG
      && ((!keyUnknown && NullTagged(MappingValue(node.value, endpointKey), SequenceKind))
          || (NullTagged(MappingValue(node.value, "etcd"), MappingKind) && HasHosts(MappingValue(node.value, "etcd"))))
  {
    if node.Some? && node.value.tag != NULL_TAG {
      var t := node.value;
      var endpoints, etcd := MappingValue(t, endpointKey), MappingValue(t, "etcd");
      EntriesEmpty(endpoints, c);
      EntriesEmpty(ValueIn(etcd, "hosts"), c);
    }
  }

  predicate HasHosts(etcd: Option<Tree>) {
    var hosts := ValueIn(etcd, "hosts");
    hosts.Some? && hosts.value.children != []
  }

  lemma EntriesEmpty(t: Option<Tree>, c: Checks)
    ensures StringSequence(t, c).Texts? ==> (StringSequence(t, c).values == [] <==> t.None? || t.value.children == [])
  {
  }

  /** Such a configuration exists: `endpoints: !!null [a:1]` is accepted as disabled and yet active. */
  lemma DisabledYetActive(c: Checks)
    requires !c.blank("a:1") && !c.spaced("a:1") && c.address("a:1")
    ensures var entry := Tree(ScalarKind, "!!str", "a:1", []);
      var list := Tree(SequenceKind, NULL_TAG, "", [entry]);
      var node := Some(Tree(MappingKind, "!!map", "", [Key("endpoints"), list]));
      Disabled(node) && Validate(node, "endpoints", false, c) == Active
  {
    var entry := Tree(ScalarKind, "!!str", "a:1", []);
    var list := Tree(SequenceKind, NULL_TAG, "", [entry]);
    var t := Tree(MappingKind, "!!map", "", [Key("endpoints"), list]);
    var s := Setting("", "", ["a:1"], [], None, None);
    OnlyKey("endpoints", list);
    assert Direct(s, "endpoints") == ["a:1"];
    SaysEndpoints(t, list, entry, s, c);
    hide MappingValue, WellTyped, Validate;
    EndpointsDecide(t, s, "endpoints", false, c);
  }

  lemma SaysEndpoints(t: Tree, list: Tree, entry: Tree, s: Setting, c: Checks)
    requires t.kind == MappingKind && list == Tree(SequenceKind, NULL_TAG, "", [entry])
    requires entry == Tree(ScalarKind, "!!str", "a:1", []) && s == Setting("", "", ["a:1"], [], None, None)
    requires forall k :: MappingValue(t, k) == if k == "endpoints" then Some(list) else None
    requires !c.blank("a:1") && !c.spaced("a:1")
    ensures WellTyped(t, s, c)
  {
    hide MappingValue;
  }

  lemma OnlyKey(key: string, v: Tree)
    ensures var t := Tree(MappingKind, "!!map", "", [Key(key), v]);
      forall k :: MappingValue(t, k) == if k == key then Some(v) else None
  {
    var ts := [Key(key), v];
    forall k ensures Position(ts, k, 0) == if k == key then 0 else -1 { assert Position(ts, k, 2) == -1; }
  }
}
