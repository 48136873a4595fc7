/**
 Adjusting refresh_seconds while running, and a reload from the file afterwards
 (PortRelay::setRefreshSeconds, persistRefreshSeconds, the diff of reloadConfig).
 */
module RefreshReload {
  import opened Text
  import opened Json
  import opened JsonGrammar
  import opened JsonCorrect
  import opened ConfigEditor
  import opened EditorScan
  import opened EditorMeaning
  import opened Numbers
  import opened Config

  function Clamp(secs: int): (s: int)
    ensures -3600 <= s <= 3600 && (-3600 <= secs <= 3600 ==> s == secs)
  {
    if secs > 3600 then 3600 else if secs < -3600 then -3600 else secs
  }

  /** The clamped value is the admissible one nearest to the value asked for. */
  lemma ClampNearest(secs: int, t: int)
    requires -3600 <= t <= 3600
    ensures Abs(secs - Clamp(secs)) <= Abs(secs - t)
  {
  }

  function AdjustOne(c: PortConfig, addr: string, s: int): PortConfig {
    if c.listenAddr == addr then c.(refreshSeconds := s) else c
  }

  function Adjust(cfgs: seq<PortConfig>, addr: string, s: int): (r: seq<PortConfig>)
    ensures |r| == |cfgs| && forall i :: 0 <= i < |r| ==> r[i] == AdjustOne(cfgs[i], addr, s)
  {
    seq(|cfgs|, i requires 0 <= i < |cfgs| => AdjustOne(cfgs[i], addr, s))
  }

  /** The configuration in memory and the file it came from. */
  class Live {
    var cfgs: seq<PortConfig>
    var file: string
    const path: string

    constructor (path: string, file: string, cfgs: seq<PortConfig>)
      ensures this.path == path && this.file == file && this.cfgs == cfgs
    {
      this.path, this.file, this.cfgs := path, file, cfgs;
    }

    /** setRefreshSeconds: the clamped value goes to memory, and to the file when there is one that takes it. */
    method SetRefreshSeconds(addr: string, secs: int) returns (ok: bool)
      modifies this
      ensures cfgs == Adjust(old(cfgs), addr, Clamp(secs))
      ensures ok == (path != "" && path != "-" && Edit(old(file), addr, Clamp(secs)).Some?)
      ensures file == if ok then Edit(old(file), addr, Clamp(secs)).value else old(file)
    {
      var s := if secs > 3600 then 3600 else if secs < -3600 then -3600 else secs;
      for i := 0 to |cfgs|
        invariant |cfgs| == |old(cfgs)|
        invariant forall k :: 0 <= k < i ==> cfgs[k] == AdjustOne(old(cfgs)[k], addr, s)
        invariant forall k :: i <= k < |cfgs| ==> cfgs[k] == old(cfgs)[k]
        invariant file == old(file)
      {
        if cfgs[i].listenAddr == addr {
          cfgs := cfgs[i := cfgs[i].(refreshSeconds := s)];
        }
      }
      assert cfgs == Adjust(old(cfgs), addr, s);
      if path == "" || path == "-" {
        return false;
      }
      var text := UpdateRefreshSeconds(file, addr, s);
      ok := text.Some?;
      if ok {
        file := text.value;
      }
    }
  }

  // ---- Entries in the tree ----

  /** How many depth-2 objects listen on `addr`. */
  function Entries(j: Json, d: nat, addr: string): (n: nat)
    ensures n > 0 <==> HasEntry(j, d, addr)
    decreases j, 0
  {
    match j
    case Arr(a) => ItemEntries(a, d, addr)
    case Obj(o) => if d == 0 then MemberEntries(o, 1, addr) else if d == 1 && HasListen(o, addr) then 1 else 0
    case _ => 0
  }

  function ItemEntries(a: seq<Json>, d: nat, addr: string): (n: nat)
    ensures n > 0 <==> SomeEntry(a, d, addr)
    decreases a, 1
  {
    if a == [] then 0 else Entries(a[0], d, addr) + ItemEntries(a[1..], d, addr)
  }

  function MemberEntries(o: seq<Member>, d: nat, addr: string): (n: nat)
    ensures n > 0 <==> MemberEntry(o, d, addr)
    decreases o, 1
  {
    if o == [] then 0
    else
      var m := o[0];
      assert m.1 < m;
      Entries(m.1, d, addr) + MemberEntries(o[1..], d, addr)
  }

  /** The listen address of an entry is the one a lookup returns (no second "listen" key hides it). */
  predicate OneListen(a: seq<Json>, addr: string) {
    forall i :: 0 <= i < |a| && a[i].Obj? && HasListen(a[i].o, addr) ==> Get(a[i].o, LISTEN) == Some(Str(addr))
  }

  predicate PortsOneListen(root: Json, addr: string) {
    root.Obj? && Get(root.o, "ports").Some? && Get(root.o, "ports").value.Arr? ==>
      OneListen(Get(root.o, "ports").value.a, addr)
  }

  // ---- The edit, seen by the configuration reader ----

  lemma {:induction false} ListenFound(o: seq<Member>, addr: string)
    ensures Get(o, LISTEN) == Some(Str(addr)) ==> HasListen(o, addr)
    decreases |o|
  {
    if o != [] && o[0].0 != LISTEN {
      ListenFound(o[1..], addr);
    }
  }

  /** Setting one member leaves every other member as it is read. */
  lemma ReadsSame(o: seq<Member>, o': seq<Member>, n: Json, num: string -> int)
    requires o' == SetMember(o, REFRESH, n)
    ensures Get(o', REFRESH) == Some(n)
    ensures forall k :: k != REFRESH ==> Get(o', k) == Get(o, k)
    ensures forall k, d :: k != REFRESH ==> StrOr(o', k, d) == StrOr(o, k, d)
    ensures forall k, d :: k != REFRESH ==> BoolOr(o', k, d) == BoolOr(o, k, d)
    ensures forall k, d :: k != REFRESH ==> IntOr(o', k, d, num) == IntOr(o, k, d, num)
    ensures forall k :: k != REFRESH ==> Sub(o', k) == Sub(o, k)
  {
    hide SetMember, Get;
    forall k
      ensures Get(o', k) == if k == REFRESH then Some(n) else Get(o, k)
    {
      GetSet(o, REFRESH, n, k);
    }
  }

  lemma PortSet(o: seq<Member>, val: string, num: string -> int)
    ensures var c, c' := PortOf(Obj(o), num), PortOf(Obj(SetMember(o, REFRESH, Num(val))), num);
            c' == if c.None? then None else Some(c.value.(refreshSeconds := num(val)))
  {
    hide SetMember, Taken, FieldsOf;
    TakenSet(o, Num(val), num);
    FieldsSet(o, val, num);
  }

  lemma TakenSet(o: seq<Member>, n: Json, num: string -> int)
    ensures Taken(SetMember(o, REFRESH, n)) == Taken(o)
  {
    hide SetMember, Get, StrOr, BoolOr;
    ReadsSame(o, SetMember(o, REFRESH, n), n, num);
  }

  lemma FieldsSet(o: seq<Member>, val: string, num: string -> int)
    ensures FieldsOf(SetMember(o, REFRESH, Num(val)), num) == FieldsOf(o, num).(refreshSeconds := num(val))
  {
    hide SetMember, Get, AuthOf, MonitorOf, ProtocolsOf, StrOr, BoolOr, IntOr, Sub;
    var o' := SetMember(o, REFRESH, Num(val));
    ReadsSame(o, o', Num(val), num);
    RefreshRead(o', val, num);
  }

  lemma RefreshRead(o: seq<Member>, val: string, num: string -> int)
    requires Get(o, REFRESH) == Some(Num(val))
    ensures IntOr(o, REFRESH, 5, num) == num(val)
  {
  }

  /** A port that is read with address `addr` comes from an object that listens on `addr`. */
  lemma PortListens(j: Json, addr: string, num: string -> int)
    requires addr != "" && PortOf(j, num).Some? && PortOf(j, num).value.listenAddr == addr
    ensures HasEntry(j, 1, addr)
  {
    hide Get, AuthOf, MonitorOf, ProtocolsIn;
    ListenFound(j.o, addr);
  }

  /** No entry listens on `addr`: adjusting changes nothing. */
  lemma {:induction false} NoPort(a: seq<Json>, addr: string, s: int, num: string -> int)
    requires addr != "" && ItemEntries(a, 1, addr) == 0
    ensures Adjust(PortsOf(a, num), addr, s) == PortsOf(a, num)
    decreases |a|
  {
    hide PortOf, HasEntry, Entries;
    if a != [] {
      NoPort(a[1..], addr, s, num);
      if PortOf(a[0], num).Some? && PortOf(a[0], num).value.listenAddr == addr {
        PortListens(a[0], addr, num);
      }
    }
  }

  function Consed(c: Option<PortConfig>, rest: seq<PortConfig>): seq<PortConfig> {
    match c
    case None => rest
    case Some(x) => [x] + rest
  }

  lemma AdjustHead(c: Option<PortConfig>, rest: seq<PortConfig>, addr: string, s: int)
    ensures Adjust(Consed(c, rest), addr, s)
         == Consed(if c.None? then None else Some(AdjustOne(c.value, addr, s)), Adjust(rest, addr, s))
  {
    hide AdjustOne;
  }

  lemma EntryIsListen(j: Json, addr: string)
    requires HasEntry(j, 1, addr) && j.Obj?
    ensures HasListen(j.o, addr)
  {
  }

  lemma {:induction false} PortsEdited(a: seq<Json>, addr: string, val: string, num: string -> int)
    requires addr != "" && ItemEntries(a, 1, addr) <= 1 && OneListen(a, addr)
    ensures PortsOf(EditSeq(a, 1, addr, Num(val)), num) == Adjust(PortsOf(a, num), addr, num(val))
    decreases |a|
  {
    hide PortOf, HasEntry, JsonEdit, Entries;
    if a != [] {
      var rest, s := a[1..], num(val);
      AdjustHead(PortOf(a[0], num), PortsOf(rest, num), addr, s);
      if HasEntry(a[0], 1, addr) {
        var e := JsonEdit(a[0], 1, addr, Num(val));
        assert ([e] + rest)[1..] == rest;
        NoPort(rest, addr, s, num);
        if a[0].Obj? {
          EntryIsListen(a[0], addr);
        }
        EntryEditedPort(a[0], addr, val, num);
      } else {
        var t := EditSeq(rest, 1, addr, Num(val));
        assert ([a[0]] + t)[1..] == t;
        PortsEdited(rest, addr, val, num);
        if PortOf(a[0], num).Some? && PortOf(a[0], num).value.listenAddr == addr {
          PortListens(a[0], addr, num);
        }
      }
    }
  }

  lemma EntryEditedPort(j: Json, addr: string, val: string, num: string -> int)
    requires HasEntry(j, 1, addr)
    requires j.Obj? ==> Get(j.o, LISTEN) == Some(Str(addr))
    ensures var c, c' := PortOf(j, num), PortOf(JsonEdit(j, 1, addr, Num(val)), num);
            c' == if c.None? then None else Some(AdjustOne(c.value, addr, num(val)))
  {
    hide SetMember, Get, AuthOf, MonitorOf, ProtocolsIn, Taken, EditSeq, SomeEntry, HasListen;
    if j.Obj? {
      PortSet(j.o, val, num);
    }
  }

  lemma {:induction false} MembersEdited(o: seq<Member>, addr: string, val: string, num: string -> int)
    requires addr != "" && MemberEntries(o, 1, addr) <= 1 && PortsOneListen(Obj(o), addr)
    ensures ConfigsOf(Obj(EditMembers(o, 1, addr, Num(val))), num) == Adjust(ConfigsOf(Obj(o), num), addr, num(val))
    decreases |o|
  {
    hide PortsOf, HasEntry, JsonEdit, Entries, EditSeq, OneListen;
    if o != [] {
      var m, rest, n := o[0], o[1..], Num(val);
      if HasEntry(m.1, 1, addr) {
        assert ([(m.0, JsonEdit(m.1, 1, addr, n))] + rest)[1..] == rest;
        if m.0 == "ports" {
          PortsMember(m.1, addr, val, num);
        } else {
          NoConfig(rest, addr, num(val), num);
        }
      } else {
        var t := EditMembers(rest, 1, addr, n);
        assert ([m] + t)[1..] == t;
        if m.0 == "ports" {
          NoPortIn(m.1, addr, num(val), num);
        } else {
          assert Get(o, "ports") == Get(rest, "ports");
          MembersEdited(rest, addr, val, num);
        }
      }
    }
  }

  lemma PortsMember(j: Json, addr: string, val: string, num: string -> int)
    requires addr != "" && Entries(j, 1, addr) <= 1 && (j.Arr? ==> OneListen(j.a, addr))
    ensures j.Arr? ==> JsonEdit(j, 1, addr, Num(val)) == Arr(EditSeq(j.a, 1, addr, Num(val)))
    ensures j.Arr? ==> PortsOf(EditSeq(j.a, 1, addr, Num(val)), num) == Adjust(PortsOf(j.a, num), addr, num(val))
    ensures !j.Arr? ==> !JsonEdit(j, 1, addr, Num(val)).Arr?
  {
    hide PortsOf, EditSeq, OneListen;
    if j.Arr? {
      PortsEdited(j.a, addr, val, num);
    }
  }

  lemma NoPortIn(j: Json, addr: string, s: int, num: string -> int)
    requires addr != "" && !HasEntry(j, 1, addr)
    ensures j.Arr? ==> Adjust(PortsOf(j.a, num), addr, s) == PortsOf(j.a, num)
  {
    hide PortsOf, ItemEntries;
    if j.Arr? {
      NoPort(j.a, addr, s, num);
    }
  }

  lemma {:induction false} NoConfig(o: seq<Member>, addr: string, s: int, num: string -> int)
    requires addr != "" && MemberEntries(o, 1, addr) == 0
    ensures Adjust(ConfigsOf(Obj(o), num), addr, s) == ConfigsOf(Obj(o), num)
    decreases |o|
  {
    hide PortsOf, Entries, HasEntry;
    if o != [] {
      if o[0].0 == "ports" {
        NoPortIn(o[0].1, addr, s, num);
      } else {
        NoConfig(o[1..], addr, s, num);
      }
    }
  }

  // ---- The diff after an adjustment ----

  lemma AdjustLast(cfgs: seq<PortConfig>, addr: string, s: int)
    requires cfgs != []
    ensures var n, adj := |cfgs| - 1, Adjust(cfgs, addr, s);
            adj[..n] == Adjust(cfgs[..n], addr, s) && adj[n] == AdjustOne(cfgs[n], addr, s)
    ensures AdjustOne(cfgs[|cfgs| - 1], addr, s).listenAddr == cfgs[|cfgs| - 1].listenAddr
  {
  }

  lemma {:induction false} ByAddrAdjusted(cfgs: seq<PortConfig>, addr: string, s: int)
    ensures ByAddr(Adjust(cfgs, addr, s)).Keys == ByAddr(cfgs).Keys
    ensures forall a :: a in ByAddr(cfgs) ==> ByAddr(Adjust(cfgs, addr, s))[a] == AdjustOne(ByAddr(cfgs)[a], addr, s)
    decreases |cfgs|
  {
    hide AdjustOne;
    if cfgs != [] {
      ByAddrAdjusted(cfgs[..|cfgs| - 1], addr, s);
      AdjustLast(cfgs, addr, s);
    }
  }

  const NO_CHANGE := Plan({}, {}, {})

  /** Adjusting both sides keeps them in agreement. */
  lemma BothAdjusted(cur: seq<PortConfig>, next: seq<PortConfig>, addr: string, s: int)
    requires Diff(cur, next) == NO_CHANGE
    ensures Diff(Adjust(cur, addr, s), Adjust(next, addr, s)) == NO_CHANGE
  {
    hide ByAddr, Adjust;
    ByAddrAdjusted(cur, addr, s);
    ByAddrAdjusted(next, addr, s);
  }

  lemma OneChanged(o: PortConfig, n: PortConfig, addr: string, s: int)
    requires ConfigsEqual(n, o)
    ensures ConfigsEqual(n, AdjustOne(o, addr, s)) <==> o.listenAddr != addr || o.refreshSeconds == s
  {
  }

  /** Adjusting only the memory makes that port, and no other, differ, unless it had the value already. */
  lemma OneAdjusted(cur: seq<PortConfig>, next: seq<PortConfig>, addr: string, s: int)
    requires Diff(cur, next) == NO_CHANGE && addr in ByAddr(cur)
    ensures Diff(Adjust(cur, addr, s), next)
         == Plan({}, {}, if ByAddr(cur)[addr].refreshSeconds == s then {} else {addr})
  {
    hide ByAddr, Adjust, ConfigsEqual, AdjustOne;
    ByAddrAdjusted(cur, addr, s);
    ByAddrKeys(cur);
    ByAddrKeys(next);
    var o, n := ByAddr(cur), ByAddr(next);
    forall a | a in n && a in o
      ensures ConfigsEqual(n[a], AdjustOne(o[a], addr, s)) <==> (a != addr || o[a].refreshSeconds == s)
    {
      assert a !in Diff(cur, next).modified;
      OneChanged(o[a], n[a], addr, s);
    }
  }

  /** Adjusting the two sides to different values makes that port, and no other, differ. */
  lemma EachAdjusted(cur: seq<PortConfig>, next: seq<PortConfig>, addr: string, s: int, v: int)
    requires Diff(cur, next) == NO_CHANGE && addr in ByAddr(cur)
    ensures Diff(Adjust(cur, addr, s), Adjust(next, addr, v)) == Plan({}, {}, if v == s then {} else {addr})
  {
    hide ByAddr, Diff;
    BothAdjusted(cur, next, addr, v);
    ByAddrKeys(cur);
    ByAddrAdjusted(cur, addr, v);
    OneAdjusted(Adjust(cur, addr, v), Adjust(next, addr, v), addr, s);
    assert Adjust(Adjust(cur, addr, v), addr, s) == Adjust(cur, addr, s);
  }

  /**
   Memory and file agree.  After an adjustment of `addr` a reload from the file
   classifies every port as unmodified exactly when the file took the value and gives
   it back when read, or did not take it and the port had it already; otherwise it
   classifies `addr`, and only `addr`, as modified.  `num` is any reading of numbers.
   */
  lemma AdjustThenReload(doc: Doc, cur: seq<PortConfig>, addr: string, secs: int, num: string -> int)
    requires WfDoc(doc) && Clean(doc.root, 0)
    requires Diff(cur, ConfigsOf(Meaning(doc.root), num)) == NO_CHANGE
    requires addr != "" && addr in ByAddr(cur)
    requires Entries(Meaning(doc.root), 0, addr) <= 1 && PortsOneListen(Meaning(doc.root), addr)
    ensures var s, j := Clamp(secs), Meaning(doc.root);
      var t := Edit(ShowDoc(doc), addr, s);
      var file := ParseJson(if t.Some? then t.value else ShowDoc(doc));
      var read := if t.Some? then num(ToString(s) + OldTail(j, addr)) else ByAddr(cur)[addr].refreshSeconds;
      && file.Some?
      && Diff(Adjust(cur, addr, s), ConfigsOf(file.value, num)) == Plan({}, {}, if read == s then {} else {addr})
  {
    hide ParseJson, Edit, ShowDoc, WfValue, Clean, HasEntry, JsonEdit, TakesNumber, OldTail, Diff, Adjust, ByAddr,
         ConfigsOf, Meaning, ToString, PortsOneListen, Entries;
    var s, j := Clamp(secs), Meaning(doc.root);
    EditMeans(doc, addr, s);
    if Edit(ShowDoc(doc), addr, s).Some? {
      var written := ToString(s) + OldTail(j, addr);
      RootEdited(j, addr, written, num);
      EachAdjusted(cur, ConfigsOf(j, num), addr, s, num(written));
    } else {
      OneAdjusted(cur, ConfigsOf(j, num), addr, s);
    }
  }

  lemma AdjustSwaps(cfgs: seq<PortConfig>, a: string, x: int, b: string, y: int)
    requires a != b
    ensures Adjust(Adjust(cfgs, a, x), b, y) == Adjust(Adjust(cfgs, b, y), a, x)
  {
  }

  /**
   Two ports adjusted at once, both having read the file before either has written it: the file keeps the
   edit of the one that writes last.  Where that edit is read back, the next reload classifies the other port,
   and only it, as modified, unless it had its new value already.
   */
  lemma EditIsLost(doc: Doc, cur: seq<PortConfig>, lost: string, a: int, last: string, b: int, num: string -> int)
    requires WfDoc(doc) && Clean(doc.root, 0)
    requires Diff(cur, ConfigsOf(Meaning(doc.root), num)) == NO_CHANGE
    requires lost != last && lost in ByAddr(cur) && last != "" && last in ByAddr(cur)
    requires Entries(Meaning(doc.root), 0, last) <= 1 && PortsOneListen(Meaning(doc.root), last)
    requires Edit(ShowDoc(doc), last, Clamp(b)).Some?
    requires num(ToString(Clamp(b)) + OldTail(Meaning(doc.root), last)) == Clamp(b)
    ensures var file := ParseJson(Edit(ShowDoc(doc), last, Clamp(b)).value);
      && file.Some?
      && Diff(Adjust(Adjust(cur, lost, Clamp(a)), last, Clamp(b)), ConfigsOf(file.value, num))
         == Plan({}, {}, if ByAddr(cur)[lost].refreshSeconds == Clamp(a) then {} else {lost})
  {
    hide ParseJson, Edit, ShowDoc, WfValue, Clean, HasEntry, JsonEdit, TakesNumber, OldTail, Diff, Adjust, ByAddr,
         ConfigsOf, Meaning, ToString, PortsOneListen, Entries;
    var j, s := Meaning(doc.root), Clamp(b);
    EditMeans(doc, last, s);
    var written := ToString(s) + OldTail(j, last);
    RootEdited(j, last, written, num);
    BothAdjusted(cur, ConfigsOf(j, num), last, s);
    ByAddrAdjusted(cur, last, s);
    OneAdjusted(Adjust(cur, last, s), Adjust(ConfigsOf(j, num), last, s), lost, Clamp(a));
    AdjustSwaps(cur, lost, Clamp(a), last, s);
    ByAddrKeys(cur);
    NotAdjusted(ByAddr(cur)[lost], last, s);
  }

  lemma NotAdjusted(c: PortConfig, addr: string, s: int)
    requires c.listenAddr != addr
    ensures AdjustOne(c, addr, s) == c
  {
  }

  /** With numbers read as the program reads them: quiet exactly when the tail does the new integer no harm. */
  lemma AdjustThenReloadReads(c: Stod, doc: Doc, cur: seq<PortConfig>, addr: string, secs: int)
    requires Nearest(c) && WfDoc(doc) && Clean(doc.root, 0)
    requires Diff(cur, ConfigsOf(Meaning(doc.root), Reader(c))) == NO_CHANGE
    requires addr != "" && addr in ByAddr(cur)
    requires Entries(Meaning(doc.root), 0, addr) <= 1 && PortsOneListen(Meaning(doc.root), addr)
    ensures var s, j := Clamp(secs), Meaning(doc.root);
      var t := Edit(ShowDoc(doc), addr, s);
      var file := ParseJson(if t.Some? then t.value else ShowDoc(doc));
      && file.Some?
      && (Diff(Adjust(cur, addr, s), ConfigsOf(file.value, Reader(c))) == NO_CHANGE <==>
            if t.Some? then ReadAs(c, s, OldTail(j, addr)) else ByAddr(cur)[addr].refreshSeconds == s)
  {
    hide ParseJson, Edit, ShowDoc, WfValue, Clean, OldTail, Diff, Adjust, ByAddr, ConfigsOf, Meaning, ToString,
         PortsOneListen, Entries, IntOf, ReadAs, IsTail, Nearest;
    AdjustThenReload(doc, cur, addr, secs, Reader(c));
    OldTailIsTail(Meaning(doc.root), addr);
    WrittenReads(c, Clamp(secs), OldTail(Meaning(doc.root), addr));
  }

  lemma RootEdited(j: Json, addr: string, val: string, num: string -> int)
    requires addr != "" && Entries(j, 0, addr) <= 1 && PortsOneListen(j, addr)
    ensures ConfigsOf(JsonEdit(j, 0, addr, Num(val)), num) == Adjust(ConfigsOf(j, num), addr, num(val))
  {
    hide EditMembers, EditSeq, Get, PortsOf;
    if j.Obj? {
      MembersEdited(j.o, addr, val, num);
    }
  }
}
