/**
 What `config import` makes of every key, said without the code's own key lists and
 checks: which values are taken over, what the result holds for every key, which keys
 are reported, and when an import succeeds.
 */
module ImportMeaning {
  import opened Basics
  import Config
  import opened Import
  import opened ImportLaws

  // ----- Which values are taken over -----

  ghost predicate IsPort(s: string) { exists n: nat :: n <= 65535 && Config.Denotes(s, n) }

  /** A non-empty host, a colon, and a port up to 65535 after the last colon. */
  ghost predicate HostPort(a: string) {
    exists k: nat :: k > 0 && Config.SplitsAt(a, k) && IsPort(a[k+1..])
  }

  ghost predicate WantedGlobal(side: Side, name: string, item: Item) {
    if name == "default_token" then item.Str? && item.s != ""
    else if side.Client? then
      || (name == "remote_addr" && item.Str? && HostPort(item.s))
      || (name == "prefer_ipv6" && item.Bool?)
      || (name == "heartbeat_timeout" && item.Int? && item.i >= 0)
      || (name == "retry_interval" && item.Int? && item.i > 0)
    else
      || (name == "bind_addr" && item.Str? && HostPort(item.s))
      || (name == "heartbeat_interval" && item.Int? && item.i >= 0)
  }

  predicate IsSubtable(name: string) { name == "tcp" || name == "tls" || name == "noise" || name == "websocket" }

  predicate WantedType(item: Item) { item.Str? && IsSubtable(item.s) }

  predicate WantedInSubtable(sub: string, name: string, item: Item) {
    || (sub == "tcp" && name == "nodelay" && item.Bool?)
    || (sub == "tcp" && (name == "keepalive_secs" || name == "keepalive_interval") && item.Int?)
    || (sub == "tcp" && name == "proxy" && item.Str?)
    || (sub == "tls" && item.Str?
        && (name == "hostname" || name == "trusted_root" || name == "pkcs12" || name == "pkcs12_password"))
    || (sub == "noise" && item.Str?
        && (name == "pattern" || name == "local_private_key" || name == "remote_public_key"))
    || (sub == "websocket" && name == "tls" && item.Bool?)
  }

  function LocalAddress(side: Side): string { if side.Client? then "local_addr" else "bind_addr" }

  predicate IsServiceKey(side: Side, name: string) {
    || name == "type" || name == LocalAddress(side) || name == "token" || name == "nodelay"
    || (side.Client? && (name == "retry_interval" || name == "prefer_ipv6"))
  }

  /** Of a service that is imported; type, address and token were checked for that. */
  predicate WantedInService(side: Side, name: string, item: Item) {
    || name == "type" || name == LocalAddress(side) || name == "token"
    || (name == "nodelay" && item.Bool?)
    || (side.Client? && name == "retry_interval" && item.Int?)
    || (side.Client? && name == "prefer_ipv6" && item.Bool?)
  }

  predicate PlainName(n: string) {
    n != "" && forall i :: 0 <= i < |n| ==>
      'a' <= n[i] <= 'z' || 'A' <= n[i] <= 'Z' || '0' <= n[i] <= '9' || n[i] == '-' || n[i] == '_'
  }

  predicate TypeFits(f: Fields) {
    match Get(f, "type")
    case None => true
    case Some(t) => t == Str("tcp") || t == Str("udp")
  }

  ghost predicate AddressFits(side: Side, f: Fields) {
    match Get(f, LocalAddress(side))
    case Some(Str(a)) => HostPort(a)
    case _ => false
  }

  predicate TokenFits(f: Fields, defaultToken: Option<Item>) {
    match Get(f, "token")
    case None => defaultToken.Some? && defaultToken.value.Str? && defaultToken.value.s != ""
    case Some(t) => t.Str? && t.s != ""
  }

  /** A service with a usable name, type and address, and a token of its own or the default one. */
  ghost predicate Importable(side: Side, name: string, item: Item, defaultToken: Option<Item>) {
    && PlainName(name)
    && (item.Table? || item.InlineTable?)
    && TypeFits(item.fields) && AddressFits(side, item.fields) && TokenFits(item.fields, defaultToken)
  }

  // ----- The code's checks decide that -----

  lemma HostPortIff(a: string)
    ensures ValidHostPort(a) <==> HostPort(a)
  {
    if ValidHostPort(a) {
      var port := Config.AfterLastColon(a).value;
      var k: nat :| k < |a| && a[k] == ':' && a[k+1..] == port;
      Config.PortIs(port, Config.ParseU16(port).value);
      assert Config.SplitsAt(a, k);
    }
    forall k: nat | k > 0 && Config.SplitsAt(a, k) && IsPort(a[k+1..]) ensures ValidHostPort(a) {
      var n: nat :| n <= 65535 && Config.Denotes(a[k+1..], n);
      Config.LastColon(a, k);
      Config.PortIs(a[k+1..], n);
    }
  }

  /** Some key of the list takes the item over. */
  predicate Takes(keys: seq<Key>, globalsOf: Option<Side>, name: string, item: Item) {
    exists i :: 0 <= i < |keys| && keys[i].name == name && Copies(keys[i], item, globalsOf)
  }

  lemma {:induction false} TakesOneMore(keys: seq<Key>, globalsOf: Option<Side>, name: string, item: Item)
    requires keys != []
    ensures Takes(keys, globalsOf, name, item) <==>
              || Takes(keys[..|keys|-1], globalsOf, name, item)
              || (keys[|keys|-1].name == name && Copies(keys[|keys|-1], item, globalsOf))
  {
    var before := keys[..|keys|-1];
    assert forall i :: 0 <= i < |before| ==> before[i] == keys[i];
  }

  /** The key is the one with that name and takes the item over. */
  predicate TakesKey(k: Key, globalsOf: Option<Side>, name: string, item: Item) {
    k.name == name && Copies(k, item, globalsOf)
  }

  lemma TakesOneOf(keys: seq<Key>, globalsOf: Option<Side>, name: string, item: Item)
    requires 3 <= |keys| <= 5
    ensures Takes(keys, globalsOf, name, item) <==>
              || TakesKey(keys[0], globalsOf, name, item)
              || TakesKey(keys[1], globalsOf, name, item)
              || TakesKey(keys[2], globalsOf, name, item)
              || (|keys| > 3 && TakesKey(keys[3], globalsOf, name, item))
              || (|keys| > 4 && TakesKey(keys[4], globalsOf, name, item))
  {
  }

  lemma TakesClientGlobals(name: string, item: Item)
    requires item.Str? ==> (ValidHostPort(item.s) <==> HostPort(item.s))
    ensures Takes(Globals(Client), Some(Client), name, item) <==> WantedGlobal(Client, name, item)
  {
    NamesDiffer();
    TakesOneOf(Globals(Client), Some(Client), name, item);
    if name == "remote_addr" {
    } else if name == "default_token" {
    } else if name == "prefer_ipv6" {
    } else if name == "heartbeat_timeout" {
    } else if name == "retry_interval" {
    }
  }

  lemma TakesServerGlobals(name: string, item: Item)
    requires item.Str? ==> (ValidHostPort(item.s) <==> HostPort(item.s))
    ensures Takes(Globals(Server), Some(Server), name, item) <==> WantedGlobal(Server, name, item)
  {
    NamesDiffer();
    TakesOneOf(Globals(Server), Some(Server), name, item);
    if name == "bind_addr" {
    } else if name == "default_token" {
    } else if name == "heartbeat_interval" {
    }
  }

  lemma TakesGlobals(side: Side, name: string, item: Item)
    ensures Takes(Globals(side), Some(side), name, item) <==> WantedGlobal(side, name, item)
  {
    if item.Str? {
      HostPortIff(item.s);
    }
    if side.Client? {
      TakesClientGlobals(name, item);
    } else {
      TakesServerGlobals(name, item);
    }
  }

  lemma NamesDiffer()
    ensures "remote_addr" != "default_token" && "remote_addr" != "prefer_ipv6" && "remote_addr" != "heartbeat_timeout"
    ensures "remote_addr" != "retry_interval" && "bind_addr" != "default_token" && "bind_addr" != "heartbeat_interval"
    ensures "default_token" != "prefer_ipv6" && "default_token" != "heartbeat_timeout"
    ensures "default_token" != "retry_interval" && "default_token" != "heartbeat_interval"
    ensures "prefer_ipv6" != "heartbeat_timeout" && "prefer_ipv6" != "retry_interval"
    ensures "heartbeat_timeout" != "retry_interval"
  {
    assert "remote_addr"[0] == 'r' && "remote_addr"[2] == 'm' && "default_token"[0] == 'd' && "prefer_ipv6"[0] == 'p';
    assert "heartbeat_timeout"[0] == 'h' && "retry_interval"[0] == 'r' && "retry_interval"[2] == 't';
    assert "bind_addr"[0] == 'b' && "heartbeat_interval"[0] == 'h';
  }

  lemma TakesInSubtable(sub: string, name: string, item: Item)
    requires IsSubtable(sub)
    ensures Takes(SubtableKeys(sub), None, name, item) <==> WantedInSubtable(sub, name, item)
  {
    var keys := SubtableKeys(sub);
    assert "tcp" != "tls" && "tcp" != "noise" && "tls" != "noise" by {
      assert "tcp"[1] == 'c' && "tls"[1] == 'l' && "noise"[1] == 'o';
    }
    assert "websocket" != "tcp" && "websocket" != "tls" && "websocket" != "noise" by { assert "websocket"[1] == 'e'; }
    if sub == "tcp" {
      assert keys[0] == Key("nodelay", BoolKind) && keys[1] == Key("keepalive_secs", IntKind);
      assert keys[2] == Key("keepalive_interval", IntKind) && keys[3] == Key("proxy", StrKind);
    } else if sub == "tls" {
      assert keys[0] == Key("hostname", StrKind) && keys[1] == Key("trusted_root", StrKind);
      assert keys[2] == Key("pkcs12", StrKind) && keys[3] == Key("pkcs12_password", StrKind);
    } else if sub == "noise" {
      assert keys[0] == Key("pattern", StrKind) && keys[1] == Key("local_private_key", StrKind);
      assert keys[2] == Key("remote_public_key", StrKind);
    } else {
      assert keys[0] == Key("tls", BoolKind);
    }
  }

  lemma TakesOptional(side: Side, name: string, item: Item)
    ensures Takes(ServiceKeys(side), None, name, item) <==>
              || (name == "nodelay" && item.Bool?)
              || (side.Client? && name == "retry_interval" && item.Int?)
              || (side.Client? && name == "prefer_ipv6" && item.Bool?)
  {
    var keys := ServiceKeys(side);
    assert keys[0] == Key("nodelay", BoolKind);
    if side.Client? {
      assert keys[1] == Key("retry_interval", IntKind) && keys[2] == Key("prefer_ipv6", BoolKind);
    }
  }

  // ----- What copying makes of a key -----

  predicate TakesAt(keys: seq<Key>, globalsOf: Option<Side>, src: Fields, name: string) {
    Get(src, name).Some? && Takes(keys, globalsOf, name, Get(src, name).value)
  }

  lemma {:induction false} CopyIs(
      path: Path, src: Fields, dst: Fields, keys: seq<Key>, globalsOf: Option<Side>, name: string)
    ensures var c := CopyKeys(path, src, dst, keys, globalsOf);
            && Get(c.dst, name) == (if TakesAt(keys, globalsOf, src, name) then Get(src, name) else Get(dst, name))
            && (name in c.applied <==> TakesAt(keys, globalsOf, src, name))
  {
    if keys != [] {
      var before, k := keys[..|keys|-1], keys[|keys|-1];
      CopyIs(path, src, dst, before, globalsOf, name);
      if Get(src, name).Some? {
        TakesOneMore(keys, globalsOf, name, Get(src, name).value);
      }
      if Get(src, k.name).Some? {
        PutGet(CopyKeys(path, src, dst, before, globalsOf).dst, k.name, Get(src, k.name).value, name);
      }
    }
  }

  // ----- Globals -----

  ghost predicate TakenOver(side: Side, src: Fields, name: string) {
    Get(src, name).Some? && WantedGlobal(side, name, Get(src, name).value)
  }

  /** A global of the result is the source's if that is wanted, and the target's otherwise. */
  lemma GlobalIs(side: Side, sectionInline: bool, src: Fields, section: Fields, name: string)
    requires ImportSection(side, sectionInline, src, section).Some? && name != "transport" && name != "services"
    ensures var r := ImportSection(side, sectionInline, src, section).value;
            && Get(r.0, name) == (if TakenOver(side, src, name) then Get(src, name) else Get(section, name))
            && (name in r.1.fields <==> TakenOver(side, src, name))
  {
    var g, m, t := Phases(side, sectionInline, src, section);
    CopyIs([], src, section, Globals(side), Some(side), name);
    if Get(src, name).Some? {
      TakesGlobals(side, name, Get(src, name).value);
    }
    TransportLeavesOthers(sectionInline, src, g.dst, name);
    ServicesLeaveOthers(side, sectionInline, src, m.dst, name);
  }

  // ----- Services -----

  lemma AddressFitsIff(side: Side, f: Fields)
    ensures GoodAddr(side, f) <==> AddressFits(side, f)
  {
    match Get(f, LocalAddress(side))
    case Some(Str(a)) => HostPortIff(a);
    case _ =>
  }

  lemma TokenFitsIff(f: Fields, section: Fields)
    ensures GoodToken(f, DefaultTokenPresent(section)) <==> TokenFits(f, Get(section, "default_token"))
  {
  }

  lemma ResultIff(side: Side, name: string, item: Item, defaultToken: bool)
    ensures ImportEntry(side, name, item, defaultToken).result.Some? <==>
              && ValidServiceName(name) && TableLike(item)
              && GoodType(item.fields) && GoodAddr(side, item.fields) && GoodToken(item.fields, defaultToken)
  {
  }

  lemma EntryIff(side: Side, name: string, item: Item, section: Fields)
    ensures ImportEntry(side, name, item, DefaultTokenPresent(section)).result.Some?
            <==> Importable(side, name, item, Get(section, "default_token"))
  {
    ResultIff(side, name, item, DefaultTokenPresent(section));
    if item.Table? || item.InlineTable? {
      AddressFitsIff(side, item.fields);
      TokenFitsIff(item.fields, section);
    }
  }

  lemma EntryIs(side: Side, name: string, item: Item, defaultToken: bool, key: string)
    requires ImportEntry(side, name, item, defaultToken).result.Some?
    ensures Get(ImportEntry(side, name, item, defaultToken).result.value, key)
            == match Get(item.fields, key)
               case Some(i) => if WantedInService(side, key, i) then Some(i) else None
               case None => None
  {
    var f, path := item.fields, ["services", name];
    CopyIs(path, f, EntryBase(side, f), ServiceKeys(side), None, key);
    BaseIs(side, f, key);
    if Get(f, key).Some? {
      TakesOptional(side, key, Get(f, key).value);
    }
  }

  /** Before the optional keys are copied, an entry has type, address and token, and nothing else. */
  lemma BaseIs(side: Side, f: Fields, key: string)
    requires Get(f, ServiceAddrKey(side)).Some?
    ensures Get(EntryBase(side, f), key)
            == if key == "type" || key == LocalAddress(side) || key == "token" then Get(f, key) else None
  {
    ServiceKeysApart(side);
    var e0 := if Get(f, "type").Some? then Put([], "type", Get(f, "type").value) else [];
    var e1 := Put(e0, ServiceAddrKey(side), Get(f, ServiceAddrKey(side)).value);
    if Get(f, "type").Some? {
      PutGet([], "type", Get(f, "type").value, key);
    }
    PutGet(e0, ServiceAddrKey(side), Get(f, ServiceAddrKey(side)).value, key);
    if Get(f, "token").Some? {
      PutGet(e1, "token", Get(f, "token").value, key);
    }
  }

  /**
   A source service that the target has is listed as existing and left alone. One that
   it lacks is listed as applied if and only if it is importable, and then the target
   has, for every key, the wanted value and nothing else; otherwise it is listed as
   invalid.
   */
  lemma ServiceIs(side: Side, sectionInline: bool, src: Fields, section: Fields, k: nat, key: string)
    requires ImportSection(side, sectionInline, src, section).Some? && NoRepeats(Names(ServicesOf(src)))
    requires k < |ServicesOf(src)|
    ensures var (name, item) := ServicesOf(src)[k];
            var (section', r) := ImportSection(side, sectionInline, src, section).value;
            var importable := Importable(side, name, item, Get(section', "default_token"));
            && (name in r.existing <==> name in ServiceNames(section))
            && (name in r.services <==> name !in ServiceNames(section) && importable)
            && (name in r.invalid <==> name !in ServiceNames(section) && !importable)
            && (name in ServiceNames(section) ==> Get(ServicesOf(section'), name) == Get(ServicesOf(section), name))
            && (name in r.services ==>
                  && Get(ServicesOf(section'), name).Some? && Get(ServicesOf(section'), name).value.Table?
                  && Get(Get(ServicesOf(section'), name).value.fields, key)
                     == match Get(item.fields, key)
                        case Some(i) => if WantedInService(side, key, i) then Some(i) else None
                        case None => None)
  {
    var (name, item) := ServicesOf(src)[k];
    var g, m, t := Phases(side, sectionInline, src, section);
    var section' := ImportSection(side, sectionInline, src, section).value.0;
    var f, dtp := ServicesOf(src), DefaultTokenPresent(m.dst);
    var into := EnsureTable(sectionInline, m.dst, "services").value;
    assert Names(f)[k] == name;
    ServicesReachThirdPhase(side, sectionInline, src, section, g, m);
    ServicesAreThere(side, sectionInline, src, m.dst, t);
    assert "default_token" != "services" by { assert |"services"| == 8 && |"default_token"| == 13; }
    ServicesLeaveOthers(side, sectionInline, src, m.dst, "default_token");
    TallyTells(f, ServiceNames(m.dst), EntryOf(side, dtp), into, k);
    EntryIff(side, name, item, m.dst);
    OnlyOneList(side, sectionInline, src, section, name);
    ExistingIsUnchanged(side, sectionInline, src, section, name);
    if ImportEntry(side, name, item, dtp).result.Some? {
      EntryIs(side, name, item, dtp, key);
    }
  }

  lemma ServicesAreThere(side: Side, sectionInline: bool, src: Fields, section: Fields, t: Tally)
    requires ImportServices(side, sectionInline, src, section).Some? && ServicesOf(src) != []
    requires ImportServices(side, sectionInline, src, section).value.1 == t
    ensures EnsureTable(sectionInline, section, "services").Some?
    ensures t == TallyUp(ServicesOf(src), ServiceNames(section), EntryOf(side, DefaultTokenPresent(section)),
                         EnsureTable(sectionInline, section, "services").value)
    ensures ServicesOf(ImportServices(side, sectionInline, src, section).value.0) == t.services
  {
    PutGet(section, "services", Table(t.services), "services");
  }

  lemma OnlyOneList(side: Side, sectionInline: bool, src: Fields, section: Fields, n: string)
    requires ImportSection(side, sectionInline, src, section).Some? && NoRepeats(Names(ServicesOf(src)))
    ensures var r := ImportSection(side, sectionInline, src, section).value.1;
            && !(n in r.services && n in r.existing) && !(n in r.services && n in r.invalid)
            && !(n in r.existing && n in r.invalid)
            && (n in r.existing <==> n in Names(ServicesOf(src)) && n in ServiceNames(section))
  {
    var r := ImportSection(side, sectionInline, src, section).value.1;
    ExactlyOneOfThree(side, sectionInline, src, section, n);
    CountIsFound(r.services, n);
    CountIsFound(r.existing, n);
    CountIsFound(r.invalid, n);
  }

  // ----- Transport -----

  /** The table at a key, empty if there is none. */
  function TableAt(f: Fields, key: string): Fields {
    match Get(f, key)
    case Some(Table(t)) => t
    case _ => []
  }

  predicate IsTable(item: Option<Item>) { item.Some? && (item.value.Table? || item.value.InlineTable?) }

  lemma {:induction false} SubtableIs(src: Fields, dst: Fields, subs: seq<string>, sub: string)
    requires CopySubtables(src, dst, subs).Some? && NoRepeats(subs)
    ensures var d := CopySubtables(src, dst, subs).value.dst;
            Get(d, sub)
            == if sub in subs && IsTable(Get(src, sub)) then
                 Some(Table(CopyKeys(["transport", sub], Get(src, sub).value.fields, TableAt(dst, sub),
                                     SubtableKeys(sub), None).dst))
               else Get(dst, sub)
  {
    if subs != [] {
      var before, last := subs[..|subs|-1], subs[|subs|-1];
      SubtableIs(src, dst, before, sub);
      SubtableIs(src, dst, before, last);
      var m := CopySubtables(src, dst, before).value;
      if IsTable(Get(src, last)) {
        var d := EnsureTable(false, m.dst, last).value;
        var c := CopyKeys(["transport", last], Get(src, last).value.fields, d, SubtableKeys(last), None);
        PutGet(m.dst, last, Table(c.dst), sub);
      }
    }
  }

  /** What the transport table of the result holds at a key. */
  lemma TransportTableIs(t: Fields, dst: Fields, key: string)
    requires CopyTransport(t, dst).Some?
    ensures var d := CopyTransport(t, dst).value.dst;
            && (key == "type" ==>
                  Get(d, key) == if Get(t, key).Some? && WantedType(Get(t, key).value) then Get(t, key) else Get(dst, key))
            && (IsSubtable(key) && IsTable(Get(t, key)) ==> Get(d, key).Some? && Get(d, key).value.Table?)
            && (key != "type" && !(IsSubtable(key) && IsTable(Get(t, key))) ==> Get(d, key) == Get(dst, key))
  {
    SubtablesApart();
    assert key in SUBTABLES <==> IsSubtable(key) by { InSubtables(key); }
    if Get(t, "type").Some? && Get(t, "type").value.Str? {
      InSubtables(Get(t, "type").value.s);
      PutGet(dst, "type", Get(t, "type").value, key);
    }
    SubtableIs(t, CopyType(t, dst).dst, SUBTABLES, key);
  }

  lemma InSubtables(name: string)
    ensures name in SUBTABLES <==> IsSubtable(name)
  {
    assert SUBTABLES[0] == "tcp" && SUBTABLES[1] == "tls" && SUBTABLES[2] == "noise" && SUBTABLES[3] == "websocket";
  }

  /** ... and what a subtable of it holds: the source's value where that is wanted, the target's otherwise. */
  lemma InSubtableIs(t: Fields, dst: Fields, sub: string, key: string)
    requires CopyTransport(t, dst).Some? && IsSubtable(sub) && IsTable(Get(t, sub))
    ensures var d, u := TableAt(CopyTransport(t, dst).value.dst, sub), Get(t, sub).value.fields;
            Get(d, key) == if Get(u, key).Some? && WantedInSubtable(sub, key, Get(u, key).value) then Get(u, key)
                           else Get(TableAt(dst, sub), key)
  {
    SubtablesApart();
    InSubtables(sub);
    if Get(t, "type").Some? {
      PutGet(dst, "type", Get(t, "type").value, sub);
    }
    var typed, u := CopyType(t, dst).dst, Get(t, sub).value.fields;
    SubtableIs(t, typed, SUBTABLES, sub);
    CopyIs(["transport", sub], u, TableAt(typed, sub), SubtableKeys(sub), None, key);
    if Get(u, key).Some? {
      TakesInSubtable(sub, key, Get(u, key).value);
    }
  }

  /**
   For the whole import: without a transport table in the source the target's is left
   alone; with one, the result has a table whose type and whose subtables' keys are the
   source's where those are wanted and the target's otherwise.
   */
  lemma TransportIs(side: Side, sectionInline: bool, src: Fields, section: Fields, sub: string, key: string)
    requires ImportSection(side, sectionInline, src, section).Some?
    ensures var (section', r) := ImportSection(side, sectionInline, src, section).value;
            var t, old_, new_ := Get(src, "transport"), TableAt(section, "transport"), TableAt(section', "transport");
            && (r.transport <==> IsTable(t))
            && (!IsTable(t) ==> Get(section', "transport") == Get(section, "transport"))
            && (IsTable(t) ==>
                  && Get(section', "transport").Some? && Get(section', "transport").value.Table?
                  && var f := t.value.fields;
                     && Get(new_, "type") == (if Get(f, "type").Some? && WantedType(Get(f, "type").value)
                                              then Get(f, "type") else Get(old_, "type"))
                     && (sub != "type" && !(IsSubtable(sub) && IsTable(Get(f, sub))) ==> Get(new_, sub) == Get(old_, sub))
                     && (IsSubtable(sub) && IsTable(Get(f, sub)) ==>
                           && Get(new_, sub).Some? && Get(new_, sub).value.Table?
                           && var u := Get(f, sub).value.fields;
                              Get(TableAt(new_, sub), key)
                              == if Get(u, key).Some? && WantedInSubtable(sub, key, Get(u, key).value) then Get(u, key)
                                 else Get(TableAt(old_, sub), key)))
  {
    var g, m, t := Phases(side, sectionInline, src, section);
    assert "transport" != "services" by { assert |"transport"| == 9 && |"services"| == 8; }
    GlobalsApart(side);
    CopyLeavesOthers([], src, section, Globals(side), Some(side), "transport");
    ServicesLeaveOthers(side, sectionInline, src, m.dst, "transport");
    if IsTable(Get(src, "transport")) {
      var f := Get(src, "transport").value.fields;
      var into := EnsureTable(sectionInline, g.dst, "transport").value;
      var c := CopyTransport(f, into).value;
      PutGet(g.dst, "transport", Table(c.dst), "transport");
      TransportTableIs(f, into, "type");
      TransportTableIs(f, into, sub);
      if IsSubtable(sub) && IsTable(Get(f, sub)) {
        InSubtableIs(f, into, sub, key);
      }
    }
  }
}
