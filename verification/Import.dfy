/**
 `config import` (src/config_edit.rs, `run_import`): the supported part of an old
 configuration is copied into the target, everything else is reported. Documents
 are trees of values; a table is its entries in document order.
 */
module Import {
  import opened Basics
  import Config

  datatype Item =
    | Str(s: string)
    | Int(i: int)
    | Bool(b: bool)
    | Other(text: string)              // arrays, floats, dates, arrays of tables
    | Table(fields: Fields)
    | InlineTable(fields: Fields)

  type Fields = seq<(string, Item)>

  predicate TableLike(i: Item) { i.Table? || i.InlineTable? }

  // ----- Tables -----

  function Get(f: Fields, k: string): Option<Item> {
    if f == [] then None else if f[0].0 == k then Some(f[0].1) else Get(f[1..], k)
  }

  /** Replaces the value in place, or appends. */
  function Put(f: Fields, k: string, v: Item): Fields {
    if f == [] then [(k, v)] else if f[0].0 == k then [(k, v)] + f[1..] else [f[0]] + Put(f[1..], k, v)
  }

  function Names(f: Fields): seq<string> { seq(|f|, i requires 0 <= i < |f| => f[i].0) }

  lemma {:induction false} PutGet(f: Fields, k: string, v: Item, k': string)
    ensures Get(Put(f, k, v), k') == if k' == k then Some(v) else Get(f, k')
  {
    if f != [] && f[0].0 != k {
      PutGet(f[1..], k, v, k');
    }
  }

  lemma {:induction false} PutSame(f: Fields, k: string, v: Item)
    requires Get(f, k) == Some(v)
    ensures Put(f, k, v) == f
  {
    if f[0].0 == k {
      assert f == [(k, v)] + f[1..];
    } else {
      PutSame(f[1..], k, v);
    }
  }

  lemma {:induction false} GetIffNamed(f: Fields, k: string)
    ensures Get(f, k).Some? <==> k in Names(f)
  {
    if f != [] {
      GetIffNamed(f[1..], k);
      assert Names(f) == [f[0].0] + Names(f[1..]);
    }
  }

  // ----- What is imported -----

  datatype Side = Client | Server
  datatype Kind = StrKind | IntKind | BoolKind
  datatype Key = Key(name: string, kind: Kind)

  predicate Matches(k: Kind, i: Item) {
    match k
    case StrKind => i.Str?
    case IntKind => i.Int?
    case BoolKind => i.Bool?
  }

  function SectionKey(s: Side): string { if s.Client? then "client" else "server" }

  function OtherSectionKey(s: Side): string { if s.Client? then "server" else "client" }

  function Globals(s: Side): seq<Key> {
    if s.Client? then
      [Key("remote_addr", StrKind), Key("default_token", StrKind), Key("prefer_ipv6", BoolKind),
       Key("heartbeat_timeout", IntKind), Key("retry_interval", IntKind)]
    else
      [Key("bind_addr", StrKind), Key("default_token", StrKind), Key("heartbeat_interval", IntKind)]
  }

  function AddrKey(s: Side): string { if s.Client? then "remote_addr" else "bind_addr" }

  function ServiceAddrKey(s: Side): string { if s.Client? then "local_addr" else "bind_addr" }

  /** The service keys copied after type, address and token. */
  function ServiceKeys(s: Side): seq<Key> {
    if s.Client? then
      [Key("nodelay", BoolKind), Key("retry_interval", IntKind), Key("prefer_ipv6", BoolKind)]
    else [Key("nodelay", BoolKind)]
  }

  const SUBTABLES: seq<string> := ["tcp", "tls", "noise", "websocket"]

  function SubtableKeys(sub: string): seq<Key> {
    if sub == "tcp" then
      [Key("nodelay", BoolKind), Key("keepalive_secs", IntKind), Key("keepalive_interval", IntKind), Key("proxy", StrKind)]
    else if sub == "tls" then
      [Key("hostname", StrKind), Key("trusted_root", StrKind), Key("pkcs12", StrKind), Key("pkcs12_password", StrKind)]
    else if sub == "noise" then
      [Key("pattern", StrKind), Key("local_private_key", StrKind), Key("remote_public_key", StrKind)]
    else [Key("tls", BoolKind)]
  }

  function NamesOf(keys: seq<Key>): seq<string> { seq(|keys|, i requires 0 <= i < |keys| => keys[i].name) }

  /** A numeric port after the last colon, and something before it. */
  predicate ValidHostPort(a: string) {
    match Config.AfterLastColon(a)
    case Some(port) => |port| + 1 < |a| && Config.ParseU16(port).Some?
    case None => false
  }

  predicate ValidServiceName(n: string) {
    n != [] && forall i :: 0 <= i < |n| ==>
      'a' <= n[i] <= 'z' || 'A' <= n[i] <= 'Z' || '0' <= n[i] <= '9' || n[i] == '-' || n[i] == '_'
  }

  /** A global of the right type whose value is refused. */
  predicate Rejected(s: Side, k: Key, i: Item)
    requires Matches(k.kind, i)
  {
    if k.name == "remote_addr" || k.name == "bind_addr" then i.Str? && !ValidHostPort(i.s)
    else if k.name == "default_token" then i.Str? && i.s == ""
    else if s.Client? && k.name == "retry_interval" then i.Int? && i.i <= 0
    else k.kind.IntKind? && i.i < 0
  }

  /** A reported key: its path below the role section. */
  type Path = seq<string>

  // ----- Copying whitelisted keys -----

  datatype Copied = Copied(dst: Fields, applied: seq<string>, ignored: seq<Path>)

  /** Is the item copied? `globalsOf` says whether values are checked too. */
  predicate Copies(k: Key, i: Item, globalsOf: Option<Side>) {
    Matches(k.kind, i) && (globalsOf.Some? ==> !Rejected(globalsOf.value, k, i))
  }

  function CopyKeys(path: Path, src: Fields, dst: Fields, keys: seq<Key>, globalsOf: Option<Side>): Copied {
    if keys == [] then Copied(dst, [], []) else
    var c, k := CopyKeys(path, src, dst, keys[..|keys|-1], globalsOf), keys[|keys|-1];
    match Get(src, k.name)
    case None => c
    case Some(item) =>
      if Copies(k, item, globalsOf) then c.(dst := Put(c.dst, k.name, item), applied := c.applied + [k.name])
      else c.(ignored := c.ignored + [path + [k.name]])
  }

  method CopyWhitelisted(path: Path, src: Fields, dst: Fields, keys: seq<Key>, globalsOf: Option<Side>)
      returns (c: Copied)
    ensures c == CopyKeys(path, src, dst, keys, globalsOf)
  {
    c := Copied(dst, [], []);
    for i := 0 to |keys|
      invariant c == CopyKeys(path, src, dst, keys[..i], globalsOf)
    {
      assert keys[..i+1][..i] == keys[..i];
      var item := Get(src, keys[i].name);
      if item.None? {
        continue;
      }
      if !Matches(keys[i].kind, item.value) {
        c := c.(ignored := c.ignored + [path + [keys[i].name]]);
        continue;
      }
      if globalsOf.Some? && Rejected(globalsOf.value, keys[i], item.value) {
        c := c.(ignored := c.ignored + [path + [keys[i].name]]);
        continue;
      }
      c := c.(dst := Put(c.dst, keys[i].name, item.value), applied := c.applied + [keys[i].name]);
    }
    assert keys[..|keys|] == keys;
  }

  /** Keys outside `keys` are not touched. */
  lemma {:induction false} CopyLeavesOthers(
      path: Path, src: Fields, dst: Fields, keys: seq<Key>, globalsOf: Option<Side>, name: string)
    requires name !in NamesOf(keys)
    ensures Get(CopyKeys(path, src, dst, keys, globalsOf).dst, name) == Get(dst, name)
  {
    if keys != [] {
      var before, k := keys[..|keys|-1], keys[|keys|-1];
      assert forall i :: 0 <= i < |before| ==> NamesOf(before)[i] == NamesOf(keys)[i];
      assert NamesOf(keys)[|keys|-1] == k.name;
      CopyLeavesOthers(path, src, dst, before, globalsOf, name);
      if Get(src, k.name).Some? {
        PutGet(CopyKeys(path, src, dst, before, globalsOf).dst, k.name, Get(src, k.name).value, name);
      }
    }
  }

  predicate DistinctNames(keys: seq<Key>) {
    forall i, j :: 0 <= i < j < |keys| ==> keys[i].name != keys[j].name
  }

  /** Every whitelisted key of the source is either in the target now, as it was, or reported. */
  lemma {:induction false} CopyAccounts(
      path: Path, src: Fields, dst: Fields, keys: seq<Key>, globalsOf: Option<Side>, n: nat)
    requires DistinctNames(keys) && n < |keys| && Get(src, keys[n].name).Some?
    ensures var c := CopyKeys(path, src, dst, keys, globalsOf);
            if Copies(keys[n], Get(src, keys[n].name).value, globalsOf)
            then Get(c.dst, keys[n].name) == Get(src, keys[n].name)
            else path + [keys[n].name] in c.ignored
  {
    var before, k := keys[..|keys|-1], keys[|keys|-1];
    var c := CopyKeys(path, src, dst, before, globalsOf);
    if n < |before| {
      CopyAccounts(path, src, dst, before, globalsOf, n);
    }
    if Get(src, k.name).Some? {
      PutGet(c.dst, k.name, Get(src, k.name).value, keys[n].name);
    }
  }

  /** The same, by name. */
  lemma CopiedOrReported(
      path: Path, src: Fields, dst: Fields, keys: seq<Key>, globalsOf: Option<Side>, name: string)
    requires DistinctNames(keys) && name in NamesOf(keys) && name in Names(src)
    ensures var c := CopyKeys(path, src, dst, keys, globalsOf);
            Get(c.dst, name) == Get(src, name) || path + [name] in c.ignored
  {
    var i :| 0 <= i < |keys| && NamesOf(keys)[i] == name;
    GetIffNamed(src, name);
    CopyAccounts(path, src, dst, keys, globalsOf, i);
  }

  /** Copying into a target that has the copied values already changes nothing. */
  lemma {:induction false} CopyAgain(
      path: Path, src: Fields, dst: Fields, keys: seq<Key>, globalsOf: Option<Side>)
    requires forall i :: 0 <= i < |keys| && Get(src, keys[i].name).Some?
               && Copies(keys[i], Get(src, keys[i].name).value, globalsOf)
               ==> Get(dst, keys[i].name) == Get(src, keys[i].name)
    ensures CopyKeys(path, src, dst, keys, globalsOf).dst == dst
  {
    if keys != [] {
      var before, k := keys[..|keys|-1], keys[|keys|-1];
      CopyAgain(path, src, dst, before, globalsOf);
      if Get(src, k.name).Some? && Copies(k, Get(src, k.name).value, globalsOf) {
        PutSame(dst, k.name, Get(src, k.name).value);
      }
    }
  }

  // ----- Keys nobody knows -----

  function Unknown(path: Path, src: Fields, known: seq<string>): seq<Path> {
    if src == [] then []
    else
      Unknown(path, src[..|src|-1], known)
      + if src[|src|-1].0 in known then [] else [path + [src[|src|-1].0]]
  }

  method ReportUnknown(path: Path, src: Fields, known: seq<string>) returns (ignored: seq<Path>)
    ensures ignored == Unknown(path, src, known)
  {
    ignored := [];
    for i := 0 to |src|
      invariant ignored == Unknown(path, src[..i], known)
    {
      assert src[..i+1][..i] == src[..i];
      if src[i].0 !in known {
        ignored := ignored + [path + [src[i].0]];
      }
    }
    assert src[..|src|] == src;
  }

  lemma {:induction false} UnknownAreReported(path: Path, src: Fields, known: seq<string>, n: nat)
    requires n < |src| && src[n].0 !in known
    ensures path + [src[n].0] in Unknown(path, src, known)
  {
    if n < |src| - 1 {
      UnknownAreReported(path, src[..|src|-1], known, n);
    }
  }

  /** The table at `key`, made if missing; None if something else is there. */
  function EnsureTable(parentInline: bool, parent: Fields, key: string): Option<Fields> {
    match Get(parent, key)
    case None => if parentInline then None else Some([])
    case Some(Table(f)) => Some(f)
    case _ => None
  }

  // ----- Transport -----

  datatype Merged = Merged(dst: Fields, ignored: seq<Path>)

  predicate KnownTransport(i: Item) { i.Str? && i.s in SUBTABLES }

  function CopyType(src: Fields, dst: Fields): Merged {
    match Get(src, "type")
    case None => Merged(dst, [])
    case Some(i) => if KnownTransport(i) then Merged(Put(dst, "type", i), []) else Merged(dst, [["transport", "type"]])
  }

  function CopySubtables(src: Fields, dst: Fields, subs: seq<string>): Option<Merged> {
    if subs == [] then Some(Merged(dst, [])) else
    var before, sub := CopySubtables(src, dst, subs[..|subs|-1]), subs[|subs|-1];
    if before.None? then None else
    var m := before.value;
    match Get(src, sub)
    case None => before
    case Some(i) =>
      if !TableLike(i) then Some(m.(ignored := m.ignored + [["transport", sub]])) else
      var d := EnsureTable(false, m.dst, sub);
      if d.None? then None else
      var c := CopyKeys(["transport", sub], i.fields, d.value, SubtableKeys(sub), None);
      Some(Merged(Put(m.dst, sub, Table(c.dst)),
                  m.ignored + Unknown(["transport", sub], i.fields, NamesOf(SubtableKeys(sub))) + c.ignored))
  }

  function CopyTransport(src: Fields, dst: Fields): Option<Merged> {
    var t := CopyType(src, dst);
    var subs := CopySubtables(src, t.dst, SUBTABLES);
    if subs.None? then None
    else Some(Merged(subs.value.dst, Unknown(["transport"], src, ["type"] + SUBTABLES) + t.ignored + subs.value.ignored))
  }

  /** The section after the transport phase, and what it reports. */
  function ImportTransport(sectionInline: bool, src: Fields, section: Fields): Option<Merged> {
    match Get(src, "transport")
    case None => Some(Merged(section, []))
    case Some(i) =>
      if !TableLike(i) then Some(Merged(section, [["transport"]])) else
      var t := EnsureTable(sectionInline, section, "transport");
      if t.None? then None else
      var m := CopyTransport(i.fields, t.value);
      if m.None? then None else Some(Merged(Put(section, "transport", Table(m.value.dst)), m.value.ignored))
  }

  // ----- Services -----

  datatype Entry = Entry(result: Option<Fields>, ignored: seq<Path>)

  function KnownServiceKeys(side: Side): seq<string> {
    ["type", ServiceAddrKey(side), "token"] + NamesOf(ServiceKeys(side))
  }

  predicate GoodType(f: Fields) {
    match Get(f, "type")
    case None => true
    case Some(i) => i == Str("tcp") || i == Str("udp")
  }

  predicate GoodAddr(side: Side, f: Fields) {
    match Get(f, ServiceAddrKey(side))
    case Some(Str(a)) => ValidHostPort(a)
    case _ => false
  }

  predicate GoodToken(f: Fields, defaultToken: bool) {
    match Get(f, "token")
    case None => defaultToken
    case Some(i) => i.Str? && i.s != ""
  }

  /** The entry with type, address and token in place. */
  function EntryBase(side: Side, f: Fields): Fields
    requires Get(f, ServiceAddrKey(side)).Some?
  {
    var e0 := if Get(f, "type").Some? then Put([], "type", Get(f, "type").value) else [];
    var e1 := Put(e0, ServiceAddrKey(side), Get(f, ServiceAddrKey(side)).value);
    if Get(f, "token").Some? then Put(e1, "token", Get(f, "token").value) else e1
  }

  function ImportEntry(side: Side, name: string, item: Item, defaultToken: bool): Entry {
    if !ValidServiceName(name) || !TableLike(item) then Entry(None, []) else
    var f := item.fields;
    var unknown := Unknown(["services", name], f, KnownServiceKeys(side));
    if !GoodType(f) || !GoodAddr(side, f) || !GoodToken(f, defaultToken) then Entry(None, unknown) else
    var c := CopyKeys(["services", name], f, EntryBase(side, f), ServiceKeys(side), None);
    Entry(Some(c.dst), unknown + c.ignored)
  }

  datatype Tally = Tally(
    services: Fields, applied: seq<string>, existing: seq<string>, invalid: seq<string>, ignored: seq<Path>)

  /** What the entry of a service turns into, by name and value. */
  function EntryOf(side: Side, defaultToken: bool): (string, Item) -> Entry {
    (name: string, item: Item) => ImportEntry(side, name, item, defaultToken)
  }

  /** One more source service: existing, invalid or applied. */
  function TallyOne(t: Tally, known: seq<string>, name: string, e: Entry): Tally {
    if name in known then t.(existing := t.existing + [name])
    else if e.result.None? then t.(invalid := t.invalid + [name], ignored := t.ignored + e.ignored)
    else t.(services := Put(t.services, name, Table(e.result.value)), applied := t.applied + [name],
            ignored := t.ignored + e.ignored)
  }

  function TallyUp(src: Fields, known: seq<string>, entryOf: (string, Item) -> Entry, services: Fields): Tally {
    if src == [] then Tally(services, [], [], [], [])
    else
      var last := src[|src|-1];
      TallyOne(TallyUp(src[..|src|-1], known, entryOf, services), known, last.0, entryOf(last.0, last.1))
  }

  // ----- The whole import -----

  datatype Report = Report(
    fields: seq<string>, transport: bool, services: seq<string>, existing: seq<string>, invalid: seq<string>,
    ignored: seq<Path>)

  datatype Error = SourceRole | SourceSection | TargetRole | NoAddress | NotATable | RejectedByRuntime

  predicate DefaultTokenPresent(section: Fields) {
    match Get(section, "default_token")
    case Some(Str(t)) => t != ""
    case _ => false
  }

  function ServiceNames(section: Fields): seq<string> {
    match Get(section, "services")
    case Some(i) => if TableLike(i) then Names(i.fields) else []
    case None => []
  }

  predicate TransportApplied(src: Fields) {
    Get(src, "transport").Some? && TableLike(Get(src, "transport").value)
  }

  function KnownSectionKeys(side: Side): seq<string> { NamesOf(Globals(side)) + ["transport", "services"] }

  /** The section after the services phase, and what became of each service. */
  function ImportServices(side: Side, sectionInline: bool, src: Fields, section: Fields): Option<(Fields, Tally)> {
    match Get(src, "services")
    case None => Some((section, Tally([], [], [], [], [])))
    case Some(i) =>
      if !TableLike(i) then Some((section, Tally([], [], [], [], [["services"]]))) else
      var services := EnsureTable(sectionInline, section, "services");
      if services.None? then None else
      var t := TallyUp(i.fields, ServiceNames(section), EntryOf(side, DefaultTokenPresent(section)), services.value);
      Some((Put(section, "services", Table(t.services)), t))
  }

  /** Import into the role section, phase after phase; None is an error. */
  function ImportSection(side: Side, sectionInline: bool, src: Fields, section: Fields): Option<(Fields, Report)> {
    var g := CopyKeys([], src, section, Globals(side), Some(side));
    var m := ImportTransport(sectionInline, src, g.dst);
    if m.None? then None else
    var s := ImportServices(side, sectionInline, src, m.value.dst);
    if s.None? then None else
    var t := s.value.1;
    Some((s.value.0,
          Report(g.applied, TransportApplied(src), t.applied, t.existing, t.invalid,
                 g.ignored + Unknown([], src, KnownSectionKeys(side)) + m.value.ignored + t.ignored)))
  }

  /** The section of a side with which the import starts. */
  function StartSection(side: Side, src: Fields, doc: Fields): Result<Item, Error> {
    match Get(doc, SectionKey(side))
    case None =>
      if Get(src, AddrKey(side)).Some? && Get(src, AddrKey(side)).value.Str? then Ok(Table([("services", Table([]))]))
      else Err(NoAddress)
    case Some(i) => if TableLike(i) then Ok(i) else Err(NotATable)
  }

  function DetectRole(doc: Fields): Option<Side> {
    if Get(doc, "client").Some? && Get(doc, "server").None? then Some(Client)
    else if Get(doc, "client").None? && Get(doc, "server").Some? then Some(Server)
    else None
  }

  function WithFields(i: Item, f: Fields): Item
    requires TableLike(i)
  {
    if i.Table? then Table(f) else InlineTable(f)
  }

  /** `run_import`; `accepts` is the runtime's verdict on the document to be written. */
  function RunImport(accepts: Fields -> bool, src: Fields, doc: Fields): Result<(Fields, Report), Error> {
    match DetectRole(src)
    case None => Err(SourceRole)
    case Some(side) =>
      var item := Get(src, SectionKey(side)).GetOr(Other(""));
      if !TableLike(item) then Err(SourceSection)
      else if Get(doc, OtherSectionKey(side)).Some? then Err(TargetRole)
      else
        var start := StartSection(side, item.fields, doc);
        if start.Err? then Err(start.error)
        else if !TableLike(start.value) then Err(NotATable)
        else
          var r := ImportSection(side, start.value.InlineTable?, item.fields, start.value.fields);
          if r.None? then Err(NotATable) else
          var doc' := Put(doc, SectionKey(side), WithFields(start.value, r.value.0));
          if accepts(doc') then Ok((doc', r.value.1)) else Err(RejectedByRuntime)
  }

  // ----- As it is run: phases that update the section and the report -----

  class ImportRun {
    const side: Side
    const sectionInline: bool
    var section: Fields
    var appliedFields: seq<string>
    var appliedTransport: bool
    var appliedServices: seq<string>
    var skippedExisting: seq<string>
    var skippedInvalid: seq<string>
    var ignored: seq<Path>

    constructor (side: Side, sectionInline: bool, section: Fields)
      ensures this.side == side && this.sectionInline == sectionInline && this.section == section
      ensures Reported() == Report([], false, [], [], [], [])
    {
      this.side, this.sectionInline, this.section := side, sectionInline, section;
      appliedFields, appliedTransport, appliedServices := [], false, [];
      skippedExisting, skippedInvalid, ignored := [], [], [];
    }

    function Reported(): Report
      reads this
    {
      Report(appliedFields, appliedTransport, appliedServices, skippedExisting, skippedInvalid, ignored)
    }

    method CopyGlobals(src: Fields)
      modifies this
      ensures var g := CopyKeys([], src, old(section), Globals(side), Some(side));
              && section == g.dst
              && Reported() == old(Reported()).(
                   fields := old(appliedFields) + g.applied,
                   ignored := old(ignored) + g.ignored + Unknown([], src, KnownSectionKeys(side)))
    {
      var g := CopyWhitelisted([], src, section, Globals(side), Some(side));
      var unknown := ReportUnknown([], src, KnownSectionKeys(side));
      section := g.dst;
      appliedFields := appliedFields + g.applied;
      ignored := ignored + g.ignored + unknown;
    }

    /** The loop over the transport subtables. */
    method CopySubs(src: Fields, dst: Fields) returns (m: Option<Merged>)
      ensures m == CopySubtables(src, dst, SUBTABLES)
    {
      m := Some(Merged(dst, []));
      var i := 0;
      while i < |SUBTABLES|
        invariant 0 <= i <= |SUBTABLES|
        invariant m == CopySubtables(src, dst, SUBTABLES[..i])
      {
        var sub := SUBTABLES[i];
        assert SUBTABLES[..i+1][..i] == SUBTABLES[..i];
        i := i + 1;
        var item := Get(src, sub);
        if m.None? || item.None? {
          continue;
        }
        if !TableLike(item.value) {
          m := Some(m.value.(ignored := m.value.ignored + [["transport", sub]]));
          continue;
        }
        var d := EnsureTable(false, m.value.dst, sub);
        if d.None? {
          m := None;
          continue;
        }
        var unknown := ReportUnknown(["transport", sub], item.value.fields, NamesOf(SubtableKeys(sub)));
        var c := CopyWhitelisted(["transport", sub], item.value.fields, d.value, SubtableKeys(sub), None);
        m := Some(Merged(Put(m.value.dst, sub, Table(c.dst)), m.value.ignored + unknown + c.ignored));
      }
      assert SUBTABLES[..i] == SUBTABLES;
    }

    method CopyTransportTable(src: Fields) returns (ok: bool)
      modifies this
      ensures var m := ImportTransport(sectionInline, src, old(section));
              && (ok <==> m.Some?)
              && (ok ==>
                    && section == m.value.dst
                    && Reported() == old(Reported()).(
                         transport := old(appliedTransport) || TransportApplied(src),
                         ignored := old(ignored) + m.value.ignored))
    {
      var item := Get(src, "transport");
      if item.None? {
        return true;
      }
      if !TableLike(item.value) {
        ignored := ignored + [["transport"]];
        return true;
      }
      var t := item.value.fields;
      appliedTransport := true;
      var transport := EnsureTable(sectionInline, section, "transport");
      if transport.None? {
        return false;
      }
      var unknown := ReportUnknown(["transport"], t, ["type"] + SUBTABLES);
      var typed := CopyType(t, transport.value);
      var subs := CopySubs(t, typed.dst);
      if subs.None? {
        return false;
      }
      section := Put(section, "transport", Table(subs.value.dst));
      ignored := ignored + (unknown + typed.ignored + subs.value.ignored);
      return true;
    }

    method BuildEntry(name: string, item: Item, defaultToken: bool) returns (e: Entry)
      ensures e == ImportEntry(side, name, item, defaultToken)
    {
      if !ValidServiceName(name) || !TableLike(item) {
        return Entry(None, []);
      }
      var f := item.fields;
      var unknown := ReportUnknown(["services", name], f, KnownServiceKeys(side));
      var entry: Fields := [];
      var ty := Get(f, "type");
      if ty.Some? {
        if ty.value != Str("tcp") && ty.value != Str("udp") {
          return Entry(None, unknown);
        }
        entry := Put(entry, "type", ty.value);
      }
      var addr := Get(f, ServiceAddrKey(side));
      if addr.None? || !addr.value.Str? || !ValidHostPort(addr.value.s) {
        return Entry(None, unknown);
      }
      entry := Put(entry, ServiceAddrKey(side), addr.value);
      var token := Get(f, "token");
      if token.Some? {
        if !token.value.Str? || token.value.s == "" {
          return Entry(None, unknown);
        }
        entry := Put(entry, "token", token.value);
      } else if !defaultToken {
        return Entry(None, unknown);
      }
      var c := CopyWhitelisted(["services", name], f, entry, ServiceKeys(side), None);
      return Entry(Some(c.dst), unknown + c.ignored);
    }

    /** The loop over the services of the old configuration. */
    method CopyServices(src: Fields, known: seq<string>, defaultToken: bool, into: Fields) returns (t: Tally)
      ensures t == TallyUp(src, known, EntryOf(side, defaultToken), into)
    {
      t := Tally(into, [], [], [], []);
      for i := 0 to |src|
        invariant t == TallyUp(src[..i], known, EntryOf(side, defaultToken), into)
      {
        assert src[..i+1][..i] == src[..i];
        var name := src[i].0;
        if name in known {
          t := t.(existing := t.existing + [name]);
          continue;
        }
        var e := BuildEntry(name, src[i].1, defaultToken);
        t := t.(ignored := t.ignored + e.ignored);
        if e.result.None? {
          t := t.(invalid := t.invalid + [name]);
          continue;
        }
        t := t.(services := Put(t.services, name, Table(e.result.value)));
        t := t.(applied := t.applied + [name]);
      }
      assert src[..|src|] == src;
    }

    method CopyServicesTable(src: Fields) returns (ok: bool)
      modifies this
      ensures var s := ImportServices(side, sectionInline, src, old(section));
              && (ok <==> s.Some?)
              && (ok ==>
                    && section == s.value.0
                    && Reported() == old(Reported()).(
                         services := old(appliedServices) + s.value.1.applied,
                         existing := old(skippedExisting) + s.value.1.existing,
                         invalid := old(skippedInvalid) + s.value.1.invalid,
                         ignored := old(ignored) + s.value.1.ignored))
    {
      var item := Get(src, "services");
      var t := Tally([], [], [], [], []);
      if item.Some? {
        if !TableLike(item.value) {
          t := t.(ignored := [["services"]]);
        } else {
          var services := EnsureTable(sectionInline, section, "services");
          if services.None? {
            return false;
          }
          t := CopyServices(item.value.fields, ServiceNames(section), DefaultTokenPresent(section), services.value);
          section := Put(section, "services", Table(t.services));
        }
      }
      appliedServices := appliedServices + t.applied;
      skippedExisting := skippedExisting + t.existing;
      skippedInvalid := skippedInvalid + t.invalid;
      ignored := ignored + t.ignored;
      return true;
    }

    method Run(src: Fields) returns (ok: bool)
      requires Reported() == Report([], false, [], [], [], [])
      modifies this
      ensures var r := ImportSection(side, sectionInline, src, old(section));
              && (ok <==> r.Some?)
              && (ok ==> section == r.value.0 && Reported() == r.value.1)
    {
      ghost var g := CopyKeys([], src, section, Globals(side), Some(side));
      ghost var unknown := Unknown([], src, KnownSectionKeys(side));
      ghost var m := ImportTransport(sectionInline, src, g.dst);
      CopyGlobals(src);
      assert ignored == g.ignored + unknown;
      ok := CopyTransportTable(src);
      if ok {
        ghost var s := ImportServices(side, sectionInline, src, m.value.dst);
        ok := CopyServicesTable(src);
        assert ok ==> Reported() == Report(g.applied, TransportApplied(src), s.value.1.applied, s.value.1.existing,
                                           s.value.1.invalid, g.ignored + unknown + m.value.ignored + s.value.1.ignored);
      }
    }
  }
}
