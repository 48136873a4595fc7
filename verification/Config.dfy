/** Port configurations: what src/config.cpp reads from the parsed tree and what src/main.cpp compares. */
module Config {
  import opened Text
  import opened Json
  import opened ConfigEditor
  import opened EditorScan
  import opened EditorMeaning

  datatype Auth = Auth(kind: string, username: string, password: string)

  datatype Protocol = Protocol(kind: string, command: string, proxyTo: string, delayMs: int, enabled: bool)

  datatype Monitor = Monitor(enabled: bool, intervalSec: int, logDedup: string, ipv6: bool)

  datatype PortConfig = PortConfig(
    name: string,
    groupName: string,
    enabled: bool,
    listenAddr: string,
    command: string,
    stopCommand: string,
    idleMinutes: int,
    delayMs: int,
    refreshSeconds: int,
    retrySeconds: int,
    maxRetrySeconds: int,
    autoRestart: bool,
    stackSize: int,
    mode: string,
    holdPort: bool,
    protocols: seq<Protocol>,
    auth: Auth,
    httpTarget: string,
    launchOnStart: bool,
    monitor: Monitor)

  // ---- Reading a member, with the default of the field ----

  function StrOr(o: seq<Member>, key: string, default: string): string {
    match Get(o, key)
    case None => default
    case Some(j) => if j.Str? then j.s else ""
  }

  function BoolOr(o: seq<Member>, key: string, default: bool): bool {
    match Get(o, key)
    case None => default
    case Some(j) => j.Bool? && j.b
  }

  /** `num` converts a number lexeme, as stod and the cast to int do together. */
  function IntOr(o: seq<Member>, key: string, default: int, num: string -> int): int {
    match Get(o, key)
    case None => default
    case Some(j) => if j.Num? then num(j.lexeme) else 0
  }

  /** The members of an object value, none for anything else. */
  function Sub(o: seq<Member>, key: string): seq<Member> {
    match Get(o, key)
    case None => []
    case Some(j) => if j.Obj? then j.o else []
  }

  function AuthOf(o: seq<Member>): Auth {
    Auth(StrOr(o, "type", "none"), StrOr(o, "username", ""), StrOr(o, "password", ""))
  }

  function MonitorOf(o: seq<Member>, num: string -> int): Monitor {
    Monitor(BoolOr(o, "enabled", false), IntOr(o, "interval_seconds", 60, num), StrOr(o, "log_dedup", "skip"),
            BoolOr(o, "ipv6", true))
  }

  function ProtocolsOf(a: seq<Json>, num: string -> int): seq<Protocol> {
    if a == [] then []
    else
      var rest := ProtocolsOf(a[1..], num);
      match a[0]
      case Str(s) => [Protocol(s, "", "", 5000, true)] + rest
      case Obj(o) =>
        var p := Protocol(StrOr(o, "type", ""), StrOr(o, "command", ""), StrOr(o, "proxy_to", ""),
                          IntOr(o, "delay", 5000, num), BoolOr(o, "enabled", true));
        if p.enabled && p.kind != "" then [p] + rest else rest
      case _ => rest
  }

  /** An entry is taken when it has an address, a command where the mode needs one, and is not disabled. */
  predicate Taken(o: seq<Member>) {
    && Get(o, LISTEN).Some?
    && (|| Get(o, "command").Some?
        || (StrOr(o, "mode", "simple") == "mixed" && BoolOr(o, "hold_port", false))
        || StrOr(o, "mode", "simple") == "proxy")
    && BoolOr(o, "enabled", true)
  }

  function ProtocolsIn(o: seq<Member>, num: string -> int): seq<Protocol> {
    match Get(o, "protocols")
    case Some(Arr(a)) => ProtocolsOf(a, num)
    case _ => []
  }

  function FieldsOf(o: seq<Member>, num: string -> int): PortConfig {
    PortConfig(
      StrOr(o, "name", ""), StrOr(o, "group", ""), true, StrOr(o, LISTEN, ""), StrOr(o, "command", ""),
      StrOr(o, "stop_command", ""), IntOr(o, "idle_minutes", 20, num), IntOr(o, "delay", 5000, num),
      IntOr(o, REFRESH, 5, num), IntOr(o, "retry_seconds", 10, num), IntOr(o, "max_retry_seconds", 300, num),
      BoolOr(o, "auto_restart", false), IntOr(o, "stack_size", 512, num), StrOr(o, "mode", "simple"),
      BoolOr(o, "hold_port", false), ProtocolsIn(o, num), AuthOf(Sub(o, "auth")), StrOr(o, "http_target", ""),
      BoolOr(o, "launch_on_start", false), MonitorOf(Sub(o, "monitor"), num))
  }

  /** One element of the ports array: None when the entry is skipped. */
  function PortOf(entry: Json, num: string -> int): Option<PortConfig> {
    if entry.Obj? && Taken(entry.o) then Some(FieldsOf(entry.o, num)) else None
  }

  function PortsOf(a: seq<Json>, num: string -> int): seq<PortConfig> {
    if a == [] then []
    else
      var rest := PortsOf(a[1..], num);
      match PortOf(a[0], num)
      case None => rest
      case Some(c) => [c] + rest
  }

  /** parseConfig: the ports of a tree, none when it has no ports array. */
  function ConfigsOf(root: Json, num: string -> int): seq<PortConfig> {
    if !root.Obj? then []
    else
      match Get(root.o, "ports")
      case Some(Arr(a)) => PortsOf(a, num)
      case _ => []
  }

  // ---- What is read, key by key ----

  /** The member with this key says `v`: the default without one, the empty text when it is no string. */
  predicate Says(o: seq<Member>, key: string, default: string, v: string) {
    match Get(o, key)
    case None => v == default
    case Some(Str(s)) => v == s
    case Some(_) => v == ""
  }

  /** The same for a flag: false when it is no boolean. */
  predicate Flags(o: seq<Member>, key: string, default: bool, v: bool) {
    match Get(o, key)
    case None => v == default
    case Some(Bool(b)) => v == b
    case Some(_) => !v
  }

  /** And for a number: 0 when it is none. */
  predicate Counts(o: seq<Member>, key: string, default: int, num: string -> int, v: int) {
    match Get(o, key)
    case None => v == default
    case Some(Num(lexeme)) => v == num(lexeme)
    case Some(_) => v == 0
  }

  /** `m` are the members of the object under the key, none without an object there. */
  predicate Opens(o: seq<Member>, key: string, m: seq<Member>) {
    match Get(o, key)
    case Some(Obj(p)) => m == p
    case _ => m == []
  }

  /** An entry gives a port unless it is disabled, or lacks an address, or a command where its mode needs one. */
  lemma EntryTaken(entry: Json, num: string -> int)
    ensures PortOf(entry, num).Some? <==>
            && entry.Obj? && Get(entry.o, "listen").Some? && Flags(entry.o, "enabled", true, true)
            && (|| Get(entry.o, "command").Some? || Says(entry.o, "mode", "simple", "proxy")
                || (Says(entry.o, "mode", "simple", "mixed") && Flags(entry.o, "hold_port", false, true)))
  {
  }

  /** The value of each field of a port: the key it is read from, and its default. */
  lemma EntryRead(o: seq<Member>, num: string -> int)
    requires PortOf(Obj(o), num).Some?
    ensures var c := PortOf(Obj(o), num).value;
      && Says(o, "name", "", c.name) && Says(o, "group", "", c.groupName) && c.enabled
      && Says(o, "listen", "", c.listenAddr) && Says(o, "command", "", c.command)
      && Says(o, "stop_command", "", c.stopCommand) && Counts(o, "idle_minutes", 20, num, c.idleMinutes)
      && Counts(o, "delay", 5000, num, c.delayMs) && Counts(o, "refresh_seconds", 5, num, c.refreshSeconds)
      && Counts(o, "retry_seconds", 10, num, c.retrySeconds)
      && Counts(o, "max_retry_seconds", 300, num, c.maxRetrySeconds)
      && Flags(o, "auto_restart", false, c.autoRestart) && Counts(o, "stack_size", 512, num, c.stackSize)
      && Says(o, "mode", "simple", c.mode) && Flags(o, "hold_port", false, c.holdPort)
      && Says(o, "http_target", "", c.httpTarget) && Flags(o, "launch_on_start", false, c.launchOnStart)
      && c.protocols == match Get(o, "protocols") case Some(Arr(a)) => ProtocolsOf(a, num) case _ => []
  {
    hide Get, AuthOf, MonitorOf, ProtocolsOf;
  }

  /** The same for the fields read from the objects below it. */
  lemma EntryOpened(o: seq<Member>, num: string -> int, auth: seq<Member>, monitor: seq<Member>)
    requires PortOf(Obj(o), num).Some? && Opens(o, "auth", auth) && Opens(o, "monitor", monitor)
    ensures var c := PortOf(Obj(o), num).value;
      && Says(auth, "type", "none", c.auth.kind) && Says(auth, "username", "", c.auth.username)
      && Says(auth, "password", "", c.auth.password)
      && Flags(monitor, "enabled", false, c.monitor.enabled)
      && Counts(monitor, "interval_seconds", 60, num, c.monitor.intervalSec)
      && Says(monitor, "log_dedup", "skip", c.monitor.logDedup) && Flags(monitor, "ipv6", true, c.monitor.ipv6)
  {
    hide Get, ProtocolsIn;
  }

  /** A protocol: its name alone, or an object; `p` is what an element of the array stands for. */
  predicate Names(element: Json, num: string -> int, p: Protocol) {
    match element
    case Str(s) => p == Protocol(s, "", "", 5000, true)
    case Obj(o) =>
      && Says(o, "type", "", p.kind) && Says(o, "command", "", p.command) && Says(o, "proxy_to", "", p.proxyTo)
      && Counts(o, "delay", 5000, num, p.delayMs) && Flags(o, "enabled", true, p.enabled)
    case _ => false
  }

  /** The protocols of an array are those of its front and then that of its last element, unless it names none. */
  lemma {:induction false} ProtocolsRead(a: seq<Json>, last: Json, num: string -> int, p: Protocol)
    requires Names(last, num, p)
    ensures ProtocolsOf(a + [last], num)
         == ProtocolsOf(a, num) + if last.Str? || (p.enabled && p.kind != "") then [p] else []
    decreases |a|
  {
    hide Get;
    if a == [] {
      assert ProtocolsOf([last][1..], num) == [];
    } else {
      assert (a + [last])[1..] == a[1..] + [last];
      ProtocolsRead(a[1..], last, num, p);
    }
  }

  /** And elements that name none add none. */
  lemma {:induction false} ProtocolsSkip(a: seq<Json>, last: Json, num: string -> int)
    requires !last.Str? && !last.Obj?
    ensures ProtocolsOf(a + [last], num) == ProtocolsOf(a, num)
    decreases |a|
  {
    hide Get;
    if a == [] {
      assert ProtocolsOf([last][1..], num) == [];
    } else {
      assert (a + [last])[1..] == a[1..] + [last];
      ProtocolsSkip(a[1..], last, num);
    }
  }

  /** Ports are read one by one, in the order of the array. */
  lemma {:induction false} PortsRead(a: seq<Json>, last: Json, num: string -> int)
    ensures PortsOf([], num) == []
    ensures PortsOf(a + [last], num)
         == PortsOf(a, num) + match PortOf(last, num) case None => [] case Some(c) => [c]
    decreases |a|
  {
    hide PortOf;
    if a == [] {
      assert PortsOf([last][1..], num) == [];
    } else {
      assert (a + [last])[1..] == a[1..] + [last];
      PortsRead(a[1..], last, num);
    }
  }

  /** The loop of parseConfig over the ports array. */
  method ReadPorts(a: seq<Json>, num: string -> int) returns (cfgs: seq<PortConfig>)
    ensures cfgs == PortsOf(a, num)
  {
    hide PortOf;
    cfgs := [];
    for i := 0 to |a|
      invariant PortsOf(a, num) == cfgs + PortsOf(a[i..], num)
    {
      var c := PortOf(a[i], num);
      if c.Some? {
        cfgs := cfgs + [c.value];
      }
    }
  }

  // ---- Comparing two configurations ----

  /** The fields configsEqual looks at. */
  predicate ConfigsEqual(a: PortConfig, b: PortConfig) {
    && a.listenAddr == b.listenAddr
    && a.command == b.command
    && a.mode == b.mode
    && a.holdPort == b.holdPort
    && a.delayMs == b.delayMs
    && a.autoRestart == b.autoRestart
    && a.enabled == b.enabled
    && a.groupName == b.groupName
    && a.stopCommand == b.stopCommand
    && a.idleMinutes == b.idleMinutes
    && a.refreshSeconds == b.refreshSeconds
    && a.retrySeconds == b.retrySeconds
    && a.maxRetrySeconds == b.maxRetrySeconds
    && a.stackSize == b.stackSize
    && a.httpTarget == b.httpTarget
    && a.monitor.enabled == b.monitor.enabled
    && a.monitor.intervalSec == b.monitor.intervalSec
    && a.monitor.logDedup == b.monitor.logDedup
    && a.launchOnStart == b.launchOnStart
  }

  /** A configuration without what a reload does not look at: name, protocols, credentials and the ipv6 flag. */
  function Blanked(c: PortConfig): PortConfig {
    c.(name := "", protocols := [], auth := Auth("", "", ""), monitor := c.monitor.(ipv6 := false))
  }

  /** Two configurations count as equal exactly when they differ in nothing else. */
  lemma EqualMeans(a: PortConfig, b: PortConfig)
    ensures ConfigsEqual(a, b) <==> Blanked(a) == Blanked(b)
  {
  }

  /** Configurations by address; of two with the same address the later one stays. */
  function ByAddr(cfgs: seq<PortConfig>): map<string, PortConfig> {
    if cfgs == [] then map[] else ByAddr(cfgs[..|cfgs| - 1])[cfgs[|cfgs| - 1].listenAddr := cfgs[|cfgs| - 1]]
  }

  method IndexByAddr(cfgs: seq<PortConfig>) returns (m: map<string, PortConfig>)
    ensures m == ByAddr(cfgs)
  {
    m := map[];
    for i := 0 to |cfgs|
      invariant m == ByAddr(cfgs[..i])
    {
      assert cfgs[..i + 1][..i] == cfgs[..i];
      m := m[cfgs[i].listenAddr := cfgs[i]];
    }
    assert cfgs[..|cfgs|] == cfgs;
  }

  /** What a reload is going to do. */
  datatype Plan = Plan(added: set<string>, removed: set<string>, modified: set<string>)

  /** reloadConfig's diff of the running configuration against a new one. */
  function Diff(cur: seq<PortConfig>, next: seq<PortConfig>): Plan {
    var o, n := ByAddr(cur), ByAddr(next);
    Plan(n.Keys - o.Keys, o.Keys - n.Keys, set a | a in n.Keys && a in o.Keys && !ConfigsEqual(n[a], o[a]))
  }

  /** The configuration of an address is the last one in the list that has it. */
  lemma {:induction false} ByAddrLast(cfgs: seq<PortConfig>, i: nat)
    requires i < |cfgs| && forall k :: i < k < |cfgs| ==> cfgs[k].listenAddr != cfgs[i].listenAddr
    ensures cfgs[i].listenAddr in ByAddr(cfgs) && ByAddr(cfgs)[cfgs[i].listenAddr] == cfgs[i]
    decreases |cfgs|
  {
    if i < |cfgs| - 1 {
      ByAddrLast(cfgs[..|cfgs| - 1], i);
    }
  }

  lemma {:induction false} ByAddrKeys(cfgs: seq<PortConfig>)
    ensures forall a :: a in ByAddr(cfgs) ==> ByAddr(cfgs)[a] in cfgs && ByAddr(cfgs)[a].listenAddr == a
    ensures forall i :: 0 <= i < |cfgs| ==> cfgs[i].listenAddr in ByAddr(cfgs)
    decreases |cfgs|
  {
    if cfgs != [] {
      var rest := cfgs[..|cfgs| - 1];
      ByAddrKeys(rest);
    }
  }
}
