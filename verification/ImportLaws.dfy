/** What `config import` promises, proved of the phases in module Import. */
module ImportLaws {
  import opened Basics
  import opened Import

  // ----- The key lists -----

  lemma GlobalsApart(side: Side)
    ensures DistinctNames(Globals(side))
    ensures "transport" !in NamesOf(Globals(side)) && "services" !in NamesOf(Globals(side))
    ensures "default_token" in NamesOf(Globals(side))
  {
    assert NamesOf(Globals(side))[1] == "default_token";
    assert |"transport"| == 9 && |"services"| == 8;
    assert "transport"[0] == 't' && "services"[0] == 's';
  }

  lemma SubtablesApart()
    ensures forall i, j :: 0 <= i < j < |SUBTABLES| ==> SUBTABLES[i] != SUBTABLES[j]
    ensures "type" !in SUBTABLES
  {
    assert |"tcp"| == |"tls"| == 3 && "tcp"[1] != "tls"[1];
  }

  lemma SubtableKeysApart(sub: string)
    ensures DistinctNames(SubtableKeys(sub))
  {
  }

  lemma ServiceKeysApart(side: Side)
    ensures DistinctNames(ServiceKeys(side))
    ensures forall n :: n in ["type", ServiceAddrKey(side), "token"] ==> n !in NamesOf(ServiceKeys(side))
    ensures "type" != ServiceAddrKey(side) && ServiceAddrKey(side) != "token" && "type" != "token"
  {
    assert |"type"| == 4 && |"token"| == 5 && |"nodelay"| == 7 && |"prefer_ipv6"| == 11 && |"retry_interval"| == 14;
    assert |"local_addr"| == 10 && |"bind_addr"| == 9;
  }

  // ----- Services: nobody is lost, nobody is overwritten -----

  type Entries = (string, Item) -> Entry

  /** How often `names` lists `n`. */
  function Count(names: seq<string>, n: string): nat {
    if names == [] then 0 else Count(names[..|names|-1], n) + if names[|names|-1] == n then 1 else 0
  }

  /** Every source service is applied, existing or invalid: once for each time it is listed. */
  lemma {:induction false} TallyPartitions(
      src: Fields, known: seq<string>, entryOf: Entries, into: Fields, n: string)
    ensures var t := TallyUp(src, known, entryOf, into);
            Count(t.applied, n) + Count(t.existing, n) + Count(t.invalid, n) == Count(Names(src), n)
  {
    if src != [] {
      var before, last := src[..|src|-1], src[|src|-1];
      TallyPartitions(before, known, entryOf, into, n);
      OneMore(TallyUp(before, known, entryOf, into), known, last.0, entryOf(last.0, last.1), n);
      NamesPush(src, n);
    }
  }

  lemma NamesPush(src: Fields, n: string)
    requires src != []
    ensures Count(Names(src), n) == Count(Names(src[..|src|-1]), n) + if src[|src|-1].0 == n then 1 else 0
  {
    assert Names(src) == Names(src[..|src|-1]) + [src[|src|-1].0];
    CountPush(Names(src[..|src|-1]), src[|src|-1].0, n);
  }

  lemma OneMore(t: Tally, known: seq<string>, name: string, e: Entry, n: string)
    ensures var t' := TallyOne(t, known, name, e);
            Count(t'.applied, n) + Count(t'.existing, n) + Count(t'.invalid, n)
            == Count(t.applied, n) + Count(t.existing, n) + Count(t.invalid, n) + (if name == n then 1 else 0)
  {
    if name in known {
      CountPush(t.existing, name, n);
    } else if e.result.None? {
      CountPush(t.invalid, name, n);
    } else {
      CountPush(t.applied, name, n);
    }
  }

  lemma CountPush(names: seq<string>, name: string, n: string)
    ensures Count(names + [name], n) == Count(names, n) + if name == n then 1 else 0
  {
    assert (names + [name])[..|names|] == names;
  }

  lemma {:induction false} TallySorts(src: Fields, known: seq<string>, entryOf: Entries, into: Fields, n: string)
    ensures var t := TallyUp(src, known, entryOf, into);
            && (n in t.existing ==> n in known)
            && (n in t.applied || n in t.invalid ==> n !in known)
  {
    if src != [] {
      TallySorts(src[..|src|-1], known, entryOf, into, n);
    }
  }

  /** Services the target has already are left alone. */
  lemma {:induction false} TallyLeavesExisting(
      src: Fields, known: seq<string>, entryOf: Entries, into: Fields, n: string)
    requires n in known
    ensures Get(TallyUp(src, known, entryOf, into).services, n) == Get(into, n)
  {
    if src != [] {
      var t, name := TallyUp(src[..|src|-1], known, entryOf, into), src[|src|-1].0;
      TallyLeavesExisting(src[..|src|-1], known, entryOf, into, n);
      var e := entryOf(name, src[|src|-1].1);
      if name !in known && e.result.Some? {
        PutGet(t.services, name, Table(e.result.value), n);
      }
    }
  }

  predicate NoRepeats(names: seq<string>) {
    forall i, j :: 0 <= i < j < |names| ==> names[i] != names[j]
  }

  /** What one listed service turns into. */
  predicate Told(t: Tally, name: string, known: seq<string>, e: Entry) {
    if name in known then name in t.existing
    else
      && (forall p :: p in e.ignored ==> p in t.ignored)
      && if e.result.None? then name in t.invalid
         else name in t.applied && Get(t.services, name) == Some(Table(e.result.value))
  }

  lemma {:induction false} TallyTells(src: Fields, known: seq<string>, entryOf: Entries, into: Fields, k: nat)
    requires NoRepeats(Names(src)) && k < |src|
    ensures Told(TallyUp(src, known, entryOf, into), src[k].0, known, entryOf(src[k].0, src[k].1))
  {
    var before, last := src[..|src|-1], src[|src|-1];
    var t, e := TallyUp(before, known, entryOf, into), entryOf(last.0, last.1);
    if last.0 !in known && e.result.Some? {
      PutGet(t.services, last.0, Table(e.result.value), src[k].0);
    }
    if k < |before| {
      assert forall i :: 0 <= i < |before| ==> Names(before)[i] == Names(src)[i];
      TallyTells(before, known, entryOf, into, k);
      assert Names(src)[k] != Names(src)[|before|];
    }
  }

  /** Every key of an applied service is copied as it was, or reported. */
  lemma EntryAccounts(side: Side, name: string, item: Item, defaultToken: bool, n: nat)
    requires ImportEntry(side, name, item, defaultToken).result.Some? && n < |item.fields|
    ensures var e, key := ImportEntry(side, name, item, defaultToken), item.fields[n].0;
            Get(e.result.value, key) == Get(item.fields, key) || ["services", name, key] in e.ignored
  {
    var f, key, path := item.fields, item.fields[n].0, ["services", name];
    assert path + [key] == ["services", name, key];
    assert Names(f)[n] == key;
    if key !in KnownServiceKeys(side) {
      UnknownAreReported(path, f, KnownServiceKeys(side), n);
    } else {
      ServiceKeysApart(side);
      KnownKeyAccounted(side, path, f, key);
    }
  }

  lemma KnownKeyAccounted(side: Side, path: Path, f: Fields, key: string)
    requires key in KnownServiceKeys(side) && key in Names(f) && Get(f, ServiceAddrKey(side)).Some?
    ensures var c := CopyKeys(path, f, EntryBase(side, f), ServiceKeys(side), None);
            Get(c.dst, key) == Get(f, key) || path + [key] in c.ignored
  {
    ServiceKeysApart(side);
    if key in NamesOf(ServiceKeys(side)) {
      CopiedOrReported(path, f, EntryBase(side, f), ServiceKeys(side), None, key);
    } else {
      GetIffNamed(f, key);
      CopyLeavesOthers(path, f, EntryBase(side, f), ServiceKeys(side), None, key);
      BaseHolds(side, f, key);
    }
  }

  lemma BaseHolds(side: Side, f: Fields, key: string)
    requires key in ["type", ServiceAddrKey(side), "token"]
    requires Get(f, key).Some? && Get(f, ServiceAddrKey(side)).Some?
    ensures Get(EntryBase(side, f), key) == Get(f, key)
  {
    ServiceKeysApart(side);
    var e0 := if Get(f, "type").Some? then Put([], "type", Get(f, "type").value) else [];
    var e1 := Put(e0, ServiceAddrKey(side), Get(f, ServiceAddrKey(side)).value);
    if Get(f, "type").Some? {
      PutGet([], "type", Get(f, "type").value, key);
    }
    PutGet(e0, ServiceAddrKey(side), Get(f, ServiceAddrKey(side)).value, key);
    if Get(f, "token").Some? {
      PutGet(e1, "token", Get(f, "token").value, key);
    }
  }

  /** With every listed service known or invalid, nothing is inserted. */
  lemma {:induction false} TallyAgain(src: Fields, known: seq<string>, entryOf: Entries, into: Fields)
    requires forall k :: 0 <= k < |src| ==> src[k].0 in known || entryOf(src[k].0, src[k].1).result.None?
    ensures TallyUp(src, known, entryOf, into).services == into
    ensures TallyUp(src, known, entryOf, into).applied == []
  {
    if src != [] {
      TallyAgain(src[..|src|-1], known, entryOf, into);
    }
  }

  // ----- Transport -----

  /** The subtable has everything that would be copied into it. */
  predicate SubSettled(src: Fields, dst: Fields, sub: string) {
    Get(src, sub).Some? && TableLike(Get(src, sub).value) ==>
      && Get(dst, sub).Some? && Get(dst, sub).value.Table?
      && CopyKeys(["transport", sub], Get(src, sub).value.fields, Get(dst, sub).value.fields, SubtableKeys(sub), None).dst
         == Get(dst, sub).value.fields
  }

  /** Where the key of a subtable went. */
  predicate SubAccounted(src: Fields, m: Merged, sub: string) {
    match Get(src, sub)
    case None => true
    case Some(i) =>
      if !TableLike(i) then ["transport", sub] in m.ignored
      else
        && Get(m.dst, sub).Some? && Get(m.dst, sub).value.Table?
        && forall n :: 0 <= n < |i.fields| ==>
             || Get(Get(m.dst, sub).value.fields, i.fields[n].0) == Get(i.fields, i.fields[n].0)
             || ["transport", sub, i.fields[n].0] in m.ignored
  }

  /** Copying one subtable settles and accounts for it. */
  lemma SubCopied(sub: string, src: Fields, dst: Fields)
    ensures var keys, path := SubtableKeys(sub), ["transport", sub];
            var c := CopyKeys(path, src, dst, keys, None);
            && CopyKeys(path, src, c.dst, keys, None).dst == c.dst
            && (forall n :: 0 <= n < |src| ==>
                  || Get(c.dst, src[n].0) == Get(src, src[n].0)
                  || ["transport", sub, src[n].0] in Unknown(path, src, NamesOf(keys)) + c.ignored)
  {
    var keys, path := SubtableKeys(sub), ["transport", sub];
    var c := CopyKeys(path, src, dst, keys, None);
    SubtableKeysApart(sub);
    forall i | 0 <= i < |keys| && Get(src, keys[i].name).Some? && Copies(keys[i], Get(src, keys[i].name).value, None)
      ensures Get(c.dst, keys[i].name) == Get(src, keys[i].name)
    {
      CopyAccounts(path, src, dst, keys, None, i);
    }
    CopyAgain(path, src, c.dst, keys, None);
    forall n | 0 <= n < |src|
      ensures || Get(c.dst, src[n].0) == Get(src, src[n].0)
              || ["transport", sub, src[n].0] in Unknown(path, src, NamesOf(keys)) + c.ignored
    {
      assert path + [src[n].0] == ["transport", sub, src[n].0];
      if src[n].0 in NamesOf(keys) {
        assert Names(src)[n] == src[n].0;
        CopiedOrReported(path, src, dst, keys, None, src[n].0);
      } else {
        UnknownAreReported(path, src, NamesOf(keys), n);
      }
    }
  }

  /** Only the listed subtables are touched. */
  lemma {:induction false} SubsLeaveOthers(src: Fields, dst: Fields, subs: seq<string>, name: string)
    requires CopySubtables(src, dst, subs).Some? && name !in subs
    ensures Get(CopySubtables(src, dst, subs).value.dst, name) == Get(dst, name)
  {
    if subs != [] {
      var before, sub := subs[..|subs|-1], subs[|subs|-1];
      SubsLeaveOthers(src, dst, before, name);
      var m := CopySubtables(src, dst, before).value;
      if Get(src, sub).Some? && TableLike(Get(src, sub).value) {
        var d := EnsureTable(false, m.dst, sub).value;
        var c := CopyKeys(["transport", sub], Get(src, sub).value.fields, d, SubtableKeys(sub), None);
        PutGet(m.dst, sub, Table(c.dst), name);
      }
    }
  }

  lemma {:induction false} SubsSettle(src: Fields, dst: Fields, subs: seq<string>)
    requires CopySubtables(src, dst, subs).Some? && NoRepeats(subs)
    ensures var m := CopySubtables(src, dst, subs).value;
            forall sub :: sub in subs ==> SubSettled(src, m.dst, sub) && SubAccounted(src, m, sub)
  {
    if subs != [] {
      var before, sub := subs[..|subs|-1], subs[|subs|-1];
      SubsSettle(src, dst, before);
      var m, m' := CopySubtables(src, dst, before).value, CopySubtables(src, dst, subs).value;
      if Get(src, sub).Some? && TableLike(Get(src, sub).value) {
        var f, d := Get(src, sub).value.fields, EnsureTable(false, m.dst, sub).value;
        var c := CopyKeys(["transport", sub], f, d, SubtableKeys(sub), None);
        SubCopied(sub, f, d);
        forall name ensures Get(m'.dst, name) == if name == sub then Some(Table(c.dst)) else Get(m.dst, name) {
          PutGet(m.dst, sub, Table(c.dst), name);
        }
      }
      forall s | s in subs ensures SubSettled(src, m'.dst, s) && SubAccounted(src, m', s) {
        if s != sub {
          assert s in before;
          assert SubSettled(src, m.dst, s) && SubAccounted(src, m, s);
        }
      }
    }
  }

  lemma {:induction false} SubsAgain(src: Fields, dst: Fields, subs: seq<string>)
    requires forall sub :: sub in subs ==> SubSettled(src, dst, sub)
    ensures CopySubtables(src, dst, subs).Some? && CopySubtables(src, dst, subs).value.dst == dst
  {
    if subs != [] {
      var before, sub := subs[..|subs|-1], subs[|subs|-1];
      SubsAgain(src, dst, before);
      assert SubSettled(src, dst, sub);
      if Get(src, sub).Some? && TableLike(Get(src, sub).value) {
        PutSame(dst, sub, Get(dst, sub).value);
      }
    }
  }

  /** Copying a transport table a second time changes nothing. */
  lemma TransportTableAgain(src: Fields, dst: Fields)
    requires CopyTransport(src, dst).Some?
    ensures var m := CopyTransport(src, dst).value;
            CopyTransport(src, m.dst).Some? && CopyTransport(src, m.dst).value.dst == m.dst
  {
    var m, t := CopyTransport(src, dst).value, CopyType(src, dst);
    SubtablesApart();
    SubsSettle(src, t.dst, SUBTABLES);
    SubsLeaveOthers(src, t.dst, SUBTABLES, "type");
    if Get(src, "type").Some? && KnownTransport(Get(src, "type").value) {
      PutGet(dst, "type", Get(src, "type").value, "type");
      PutSame(m.dst, "type", Get(src, "type").value);
    }
    assert CopyType(src, m.dst).dst == m.dst;
    SubsAgain(src, m.dst, SUBTABLES);
  }

  /** The transport phase only touches the transport key. */
  lemma TransportLeavesOthers(sectionInline: bool, src: Fields, section: Fields, name: string)
    requires ImportTransport(sectionInline, src, section).Some? && name != "transport"
    ensures Get(ImportTransport(sectionInline, src, section).value.dst, name) == Get(section, name)
  {
    if TransportApplied(src) {
      var t := EnsureTable(sectionInline, section, "transport").value;
      var m := CopyTransport(Get(src, "transport").value.fields, t).value;
      PutGet(section, "transport", Table(m.dst), name);
    }
  }

  lemma ServicesLeaveOthers(side: Side, sectionInline: bool, src: Fields, section: Fields, name: string)
    requires ImportServices(side, sectionInline, src, section).Some? && name != "services"
    ensures Get(ImportServices(side, sectionInline, src, section).value.0, name) == Get(section, name)
  {
    var r := ImportServices(side, sectionInline, src, section).value;
    if Get(src, "services").Some? && TableLike(Get(src, "services").value) {
      PutGet(section, "services", Table(r.1.services), name);
    }
  }

  // ----- The role section -----

  /** The services table of a section. */
  function ServicesOf(section: Fields): Fields {
    match Get(section, "services")
    case Some(i) => if TableLike(i) then i.fields else []
    case None => []
  }

  /** The three phases of a successful import, one after the other. */
  lemma Phases(side: Side, sectionInline: bool, src: Fields, section: Fields)
      returns (g: Copied, m: Merged, t: Tally)
    requires ImportSection(side, sectionInline, src, section).Some?
    ensures g == CopyKeys([], src, section, Globals(side), Some(side))
    ensures ImportTransport(sectionInline, src, g.dst) == Some(m)
    ensures var r := ImportSection(side, sectionInline, src, section).value;
            && ImportServices(side, sectionInline, src, m.dst) == Some((r.0, t))
            && r.1 == Report(g.applied, TransportApplied(src), t.applied, t.existing, t.invalid,
                             g.ignored + Unknown([], src, KnownSectionKeys(side)) + m.ignored + t.ignored)
  {
    g := CopyKeys([], src, section, Globals(side), Some(side));
    m := ImportTransport(sectionInline, src, g.dst).value;
    t := ImportServices(side, sectionInline, src, m.dst).value.1;
  }

  lemma ServicesReachThirdPhase(side: Side, sectionInline: bool, src: Fields, section: Fields, g: Copied, m: Merged)
    requires g == CopyKeys([], src, section, Globals(side), Some(side))
    requires ImportTransport(sectionInline, src, g.dst) == Some(m)
    ensures Get(m.dst, "services") == Get(section, "services")
    ensures Get(m.dst, "default_token") == Get(g.dst, "default_token")
  {
    GlobalsApart(side);
    CopyLeavesOthers([], src, section, Globals(side), Some(side), "services");
    assert |"transport"| == 9 && |"services"| == 8 && |"default_token"| == 13;
    TransportLeavesOthers(sectionInline, src, g.dst, "services");
    TransportLeavesOthers(sectionInline, src, g.dst, "default_token");
  }

  /**
   Each source service is in exactly one of applied, existing and invalid: existing
   exactly if the target had one of that name.
   */
  lemma ExactlyOneOfThree(side: Side, sectionInline: bool, src: Fields, section: Fields, n: string)
    requires ImportSection(side, sectionInline, src, section).Some? && NoRepeats(Names(ServicesOf(src)))
    ensures var r := ImportSection(side, sectionInline, src, section).value.1;
            && Count(r.services, n) + Count(r.existing, n) + Count(r.invalid, n)
               == (if n in Names(ServicesOf(src)) then 1 else 0)
            && (n in r.existing <==> n in Names(ServicesOf(src)) && n in ServiceNames(section))
  {
    var g, m, t := Phases(side, sectionInline, src, section);
    ServicesReachThirdPhase(side, sectionInline, src, section, g, m);
    if Get(src, "services").Some? && TableLike(Get(src, "services").value) {
      var f := ServicesOf(src);
      var into := EnsureTable(sectionInline, m.dst, "services").value;
      TallyPartitions(f, ServiceNames(m.dst), EntryOf(side, DefaultTokenPresent(m.dst)), into, n);
      TallySorts(f, ServiceNames(m.dst), EntryOf(side, DefaultTokenPresent(m.dst)), into, n);
      CountOnce(Names(f), n);
      CountIsFound(t.applied, n);
      CountIsFound(t.existing, n);
      CountIsFound(t.invalid, n);
    }
  }

  lemma {:induction false} CountIsFound(names: seq<string>, n: string)
    ensures Count(names, n) > 0 <==> n in names
  {
    if names != [] {
      CountIsFound(names[..|names|-1], n);
      assert names == names[..|names|-1] + [names[|names|-1]];
    }
  }

  lemma {:induction false} CountOnce(names: seq<string>, n: string)
    requires NoRepeats(names)
    ensures Count(names, n) == if n in names then 1 else 0
  {
    CountIsFound(names, n);
    if names != [] {
      var before := names[..|names|-1];
      CountOnce(before, n);
      CountIsFound(before, n);
      if n in before {
        var i :| 0 <= i < |before| && before[i] == n;
        assert names[i] != names[|names|-1];
      }
    }
  }

  /** A service the target has is left as it is, and so is every key the import knows nothing of. */
  lemma ExistingIsUnchanged(side: Side, sectionInline: bool, src: Fields, section: Fields, n: string)
    requires ImportSection(side, sectionInline, src, section).Some?
    ensures var section' := ImportSection(side, sectionInline, src, section).value.0;
            && (n in ServiceNames(section) ==> Get(ServicesOf(section'), n) == Get(ServicesOf(section), n))
            && (n !in KnownSectionKeys(side) ==> Get(section', n) == Get(section, n))
  {
    var g, m, t := Phases(side, sectionInline, src, section);
    var section' := ImportSection(side, sectionInline, src, section).value.0;
    ServicesReachThirdPhase(side, sectionInline, src, section, g, m);
    if n in ServiceNames(section) {
      if Get(src, "services").Some? && TableLike(Get(src, "services").value) {
        var into := EnsureTable(sectionInline, m.dst, "services").value;
        TallyLeavesExisting(ServicesOf(src), ServiceNames(m.dst), EntryOf(side, DefaultTokenPresent(m.dst)), into, n);
        PutGet(m.dst, "services", Table(t.services), "services");
      }
    }
    if n !in KnownSectionKeys(side) {
      assert "transport" in ["transport", "services"] && "services" in ["transport", "services"];
      CopyLeavesOthers([], src, section, Globals(side), Some(side), n);
      TransportLeavesOthers(sectionInline, src, g.dst, n);
      ServicesLeaveOthers(side, sectionInline, src, m.dst, n);
    }
  }

  // ----- Nothing of the source is passed over in silence -----

  /** The key at `path` is in the target as it was in the source, or it is reported. */
  predicate KeptOrReported(src: Fields, dst: Fields, key: string, path: Path, ignored: seq<Path>) {
    Get(dst, key) == Get(src, key) || path in ignored
  }

  predicate TransportAccounted(t: Fields, dst: Fields, ignored: seq<Path>) {
    forall n :: 0 <= n < |t| ==>
      if t[n].0 in SUBTABLES then SubAccounted(t, Merged(dst, ignored), t[n].0)
      else KeptOrReported(t, dst, t[n].0, ["transport", t[n].0], ignored)
  }

  predicate ServicesAccounted(f: Fields, services: Fields, r: Report) {
    forall k :: 0 <= k < |f| ==>
      || f[k].0 in r.existing
      || f[k].0 in r.invalid
      || (&& f[k].0 in r.services && TableLike(f[k].1)
          && Get(services, f[k].0).Some? && Get(services, f[k].0).value.Table?
          && forall n :: 0 <= n < |f[k].1.fields| ==>
               KeptOrReported(f[k].1.fields, Get(services, f[k].0).value.fields, f[k].1.fields[n].0,
                              ["services", f[k].0, f[k].1.fields[n].0], r.ignored))
  }

  /** What has to be true of the n-th key of the source's role section. */
  predicate Accounted(src: Fields, section': Fields, r: Report, n: nat)
    requires n < |src|
  {
    var key := src[n].0;
    if key == "transport" then
      if TransportApplied(src) then
        && Get(section', "transport").Some? && Get(section', "transport").value.Table?
        && TransportAccounted(Get(src, "transport").value.fields, Get(section', "transport").value.fields, r.ignored)
      else ["transport"] in r.ignored
    else if key == "services" then
      if Get(src, "services").Some? && TableLike(Get(src, "services").value) then
        ServicesAccounted(ServicesOf(src), ServicesOf(section'), r)
      else ["services"] in r.ignored
    else KeptOrReported(src, section', key, [key], r.ignored)
  }

  lemma TransportIsAccounted(t: Fields, dst: Fields)
    requires CopyTransport(t, dst).Some?
    ensures var m := CopyTransport(t, dst).value; TransportAccounted(t, m.dst, m.ignored)
  {
    var m, typed := CopyTransport(t, dst).value, CopyType(t, dst);
    var subs := CopySubtables(t, typed.dst, SUBTABLES).value;
    SubtablesApart();
    SubsSettle(t, typed.dst, SUBTABLES);
    forall n | 0 <= n < |t|
      ensures if t[n].0 in SUBTABLES then SubAccounted(t, m, t[n].0)
              else KeptOrReported(t, m.dst, t[n].0, ["transport", t[n].0], m.ignored)
    {
      if t[n].0 in SUBTABLES {
        MoreReported(t, subs, m, t[n].0);
      } else if t[n].0 == "type" {
        SubsLeaveOthers(t, typed.dst, SUBTABLES, "type");
        assert Names(t)[n] == "type";
        GetIffNamed(t, "type");
        PutGet(dst, "type", Get(t, "type").value, "type");
      } else {
        UnknownAreReported(["transport"], t, ["type"] + SUBTABLES, n);
        assert ["transport"] + [t[n].0] == ["transport", t[n].0];
      }
    }
  }

  /** A longer report accounts for as much. */
  lemma MoreReported(t: Fields, m: Merged, m': Merged, sub: string)
    requires SubAccounted(t, m, sub) && m'.dst == m.dst && forall p :: p in m.ignored ==> p in m'.ignored
    ensures SubAccounted(t, m', sub)
  {
  }

  lemma ServicesAreAccounted(side: Side, f: Fields, known: seq<string>, defaultToken: bool, into: Fields, r: Report)
    requires NoRepeats(Names(f))
    requires var t := TallyUp(f, known, EntryOf(side, defaultToken), into);
             && r.services == t.applied && r.existing == t.existing && r.invalid == t.invalid
             && forall p :: p in t.ignored ==> p in r.ignored
    ensures ServicesAccounted(f, TallyUp(f, known, EntryOf(side, defaultToken), into).services, r)
  {
    var t := TallyUp(f, known, EntryOf(side, defaultToken), into);
    forall k | 0 <= k < |f| && f[k].0 !in r.existing && f[k].0 !in r.invalid
      ensures f[k].0 in r.services && TableLike(f[k].1)
      ensures Get(t.services, f[k].0).Some? && Get(t.services, f[k].0).value.Table?
      ensures forall n :: 0 <= n < |f[k].1.fields| ==>
                KeptOrReported(f[k].1.fields, Get(t.services, f[k].0).value.fields, f[k].1.fields[n].0,
                               ["services", f[k].0, f[k].1.fields[n].0], r.ignored)
    {
      TallyTells(f, known, EntryOf(side, defaultToken), into, k);
      forall n | 0 <= n < |f[k].1.fields|
        ensures KeptOrReported(f[k].1.fields, Get(t.services, f[k].0).value.fields, f[k].1.fields[n].0,
                               ["services", f[k].0, f[k].1.fields[n].0], r.ignored)
      {
        EntryAccounts(side, f[k].0, f[k].1, defaultToken, n);
      }
    }
  }

  /**
   Every key of the source's role section, at every level, is copied as it was,
   reported as ignored, or inside a service that was skipped and listed.
   */
  lemma NothingPassedOver(side: Side, sectionInline: bool, src: Fields, section: Fields, n: nat)
    requires ImportSection(side, sectionInline, src, section).Some? && NoRepeats(Names(ServicesOf(src)))
    requires n < |src|
    ensures var r := ImportSection(side, sectionInline, src, section).value; Accounted(src, r.0, r.1, n)
  {
    var g, m, t := Phases(side, sectionInline, src, section);
    var r := ImportSection(side, sectionInline, src, section).value;
    assert Names(src)[n] == src[n].0;
    GetIffNamed(src, src[n].0);
    if src[n].0 == "transport" {
      if TransportApplied(src) {
        var f := Get(src, "transport").value.fields;
        var into := EnsureTable(sectionInline, g.dst, "transport").value;
        var c := CopyTransport(f, into).value;
        TransportIsAccounted(f, into);
        PutGet(g.dst, "transport", Table(c.dst), "transport");
        assert |"transport"| == 9 && |"services"| == 8;
        ServicesLeaveOthers(side, sectionInline, src, m.dst, "transport");
        TransportStaysAccounted(f, c.dst, c.ignored, r.1.ignored);
      }
    } else if src[n].0 == "services" {
      if TableLike(Get(src, "services").value) {
        var into := EnsureTable(sectionInline, m.dst, "services").value;
        ServicesAreAccounted(side, ServicesOf(src), ServiceNames(m.dst), DefaultTokenPresent(m.dst), into, r.1);
        PutGet(m.dst, "services", Table(t.services), "services");
      }
    } else {
      PlainKeyAccounted(side, sectionInline, src, section, n, g, m);
    }
  }

  lemma TransportStaysAccounted(t: Fields, dst: Fields, ignored: seq<Path>, more: seq<Path>)
    requires TransportAccounted(t, dst, ignored) && forall p :: p in ignored ==> p in more
    ensures TransportAccounted(t, dst, more)
  {
    forall n | 0 <= n < |t| && t[n].0 in SUBTABLES ensures SubAccounted(t, Merged(dst, more), t[n].0) {
      MoreReported(t, Merged(dst, ignored), Merged(dst, more), t[n].0);
    }
  }

  lemma PlainKeyAccounted(
      side: Side, sectionInline: bool, src: Fields, section: Fields, n: nat, g: Copied, m: Merged)
    requires n < |src| && src[n].0 != "transport" && src[n].0 != "services" && Get(src, src[n].0).Some?
    requires g == CopyKeys([], src, section, Globals(side), Some(side))
    requires ImportTransport(sectionInline, src, g.dst) == Some(m)
    requires ImportServices(side, sectionInline, src, m.dst).Some?
    ensures KeptOrReported(src, ImportServices(side, sectionInline, src, m.dst).value.0, src[n].0, [src[n].0],
                           g.ignored + Unknown([], src, KnownSectionKeys(side)))
  {
    var key := src[n].0;
    TransportLeavesOthers(sectionInline, src, g.dst, key);
    ServicesLeaveOthers(side, sectionInline, src, m.dst, key);
    assert [] + [key] == [key];
    if key in NamesOf(Globals(side)) {
      GlobalsApart(side);
      GetIffNamed(src, key);
      CopiedOrReported([], src, section, Globals(side), Some(side), key);
    } else {
      UnknownAreReported([], src, KnownSectionKeys(side), n);
    }
  }

  // ----- Importing the same source again -----

  lemma GlobalsAgain(side: Side, sectionInline: bool, src: Fields, section: Fields)
    requires ImportSection(side, sectionInline, src, section).Some?
    ensures var section' := ImportSection(side, sectionInline, src, section).value.0;
            CopyKeys([], src, section', Globals(side), Some(side)).dst == section'
  {
    var g, m, t := Phases(side, sectionInline, src, section);
    var section', keys := ImportSection(side, sectionInline, src, section).value.0, Globals(side);
    GlobalsApart(side);
    forall i | 0 <= i < |keys| && Get(src, keys[i].name).Some?
               && Copies(keys[i], Get(src, keys[i].name).value, Some(side))
      ensures Get(section', keys[i].name) == Get(src, keys[i].name)
    {
      CopyAccounts([], src, section, keys, Some(side), i);
      assert NamesOf(keys)[i] == keys[i].name;
      TransportLeavesOthers(sectionInline, src, g.dst, keys[i].name);
      ServicesLeaveOthers(side, sectionInline, src, m.dst, keys[i].name);
    }
    CopyAgain([], src, section', keys, Some(side));
  }

  lemma TransportAgain(side: Side, sectionInline: bool, src: Fields, section: Fields)
    requires ImportSection(side, sectionInline, src, section).Some?
    ensures var section' := ImportSection(side, sectionInline, src, section).value.0;
            && ImportTransport(sectionInline, src, section').Some?
            && ImportTransport(sectionInline, src, section').value.dst == section'
  {
    var g, m, t := Phases(side, sectionInline, src, section);
    var section' := ImportSection(side, sectionInline, src, section).value.0;
    if TransportApplied(src) {
      var f := Get(src, "transport").value.fields;
      var into := EnsureTable(sectionInline, g.dst, "transport").value;
      var c := CopyTransport(f, into).value;
      PutGet(g.dst, "transport", Table(c.dst), "transport");
      assert |"transport"| == 9 && |"services"| == 8;
      ServicesLeaveOthers(side, sectionInline, src, m.dst, "transport");
      TransportTableAgain(f, into);
      PutSame(section', "transport", Table(c.dst));
    }
  }

  /** After the services phase, a source service is either in the target or invalid. */
  lemma KnownOrInvalid(src: Fields, known: seq<string>, entryOf: Entries, into: Fields)
    requires NoRepeats(Names(src)) && forall n :: n in known ==> n in Names(into)
    ensures forall k :: 0 <= k < |src| ==>
              || src[k].0 in Names(TallyUp(src, known, entryOf, into).services)
              || entryOf(src[k].0, src[k].1).result.None?
  {
    var t := TallyUp(src, known, entryOf, into);
    forall k | 0 <= k < |src|
      ensures src[k].0 in Names(t.services) || entryOf(src[k].0, src[k].1).result.None?
    {
      TallyTells(src, known, entryOf, into, k);
      GetIffNamed(t.services, src[k].0);
      if src[k].0 in known {
        TallyLeavesExisting(src, known, entryOf, into, src[k].0);
        GetIffNamed(into, src[k].0);
      }
    }
  }

  lemma ServicesAgain(side: Side, sectionInline: bool, src: Fields, section: Fields)
    requires ImportSection(side, sectionInline, src, section).Some? && NoRepeats(Names(ServicesOf(src)))
    ensures var section' := ImportSection(side, sectionInline, src, section).value.0;
            var again := ImportServices(side, sectionInline, src, section');
            again.Some? && again.value.0 == section' && again.value.1.applied == []
  {
    var g, m, t := Phases(side, sectionInline, src, section);
    var section' := ImportSection(side, sectionInline, src, section).value.0;
    if Get(src, "services").Some? && TableLike(Get(src, "services").value) {
      var f, into := ServicesOf(src), EnsureTable(sectionInline, m.dst, "services").value;
      var dtp := DefaultTokenPresent(m.dst);
      PutGet(m.dst, "services", Table(t.services), "services");
      assert |"services"| == 8 && |"default_token"| == 13;
      ServicesLeaveOthers(side, sectionInline, src, m.dst, "default_token");
      KnownOrInvalid(f, ServiceNames(m.dst), EntryOf(side, dtp), into);
      TallyAgain(f, ServiceNames(section'), EntryOf(side, dtp), t.services);
      PutSame(section', "services", Table(t.services));
    }
  }

  /** Importing the same source into the result changes no value of the document, and succeeds. */
  lemma ImportAgainChangesNothing(accepts: Fields -> bool, src: Fields, doc: Fields)
    requires RunImport(accepts, src, doc).Ok?
    requires DetectRole(src).Some? &&
             NoRepeats(Names(ServicesOf(Get(src, SectionKey(DetectRole(src).value)).GetOr(Table([])).fields)))
    ensures var doc' := RunImport(accepts, src, doc).value.0;
            var again := RunImport(accepts, src, doc');
            again.Ok? && again.value.0 == doc' && again.value.1.services == []
  {
    var side := DetectRole(src).value;
    var item := Get(src, SectionKey(side)).value;
    var start := StartSection(side, item.fields, doc).value;
    var section' := ImportSection(side, start.InlineTable?, item.fields, start.fields).value.0;
    var doc' := RunImport(accepts, src, doc).value.0;
    GlobalsAgain(side, start.InlineTable?, item.fields, start.fields);
    TransportAgain(side, start.InlineTable?, item.fields, start.fields);
    ServicesAgain(side, start.InlineTable?, item.fields, start.fields);
    assert SectionKey(side) != OtherSectionKey(side) by { assert "client"[0] != "server"[0]; }
    PutGet(doc, SectionKey(side), WithFields(start, section'), SectionKey(side));
    PutGet(doc, SectionKey(side), WithFields(start, section'), OtherSectionKey(side));
    PutSame(doc', SectionKey(side), WithFields(start, section'));
  }
}
