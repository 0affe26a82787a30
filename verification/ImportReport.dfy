/** What `config import` reports as ignored, exactly, and when it succeeds. */
module ImportReport {
  import opened Basics
  import opened Import
  import opened ImportLaws
  import opened ImportMeaning

  // ----- Which keys are reported -----

  /** `p` is a key directly below `path`. */
  predicate Below(path: Path, p: Path) { |p| == |path| + 1 && p[..|path|] == path }

  /** Of a table: its value at `name`, if there is one, is not taken over. */
  predicate LeftBehind(keys: seq<Key>, globalsOf: Option<Side>, src: Fields, name: string) {
    Get(src, name).Some? && !Takes(keys, globalsOf, name, Get(src, name).value)
  }

  lemma {:induction false} UnknownIs(path: Path, src: Fields, known: seq<string>, p: Path)
    ensures p in Unknown(path, src, known) <==>
              Below(path, p) && Get(src, p[|path|]).Some? && p[|path|] !in known
  {
    if src != [] {
      var before, last := src[..|src|-1], src[|src|-1];
      UnknownIs(path, before, known, p);
      assert path + [last.0] == p <==> Below(path, p) && p[|path|] == last.0 by {
        assert Below(path, p) ==> p == p[..|path|] + [p[|path|]];
      }
      if Below(path, p) {
        GetIffNamed(src, p[|path|]);
        GetIffNamed(before, p[|path|]);
        assert Names(src) == Names(before) + [last.0];
      }
    }
  }

  lemma {:induction false} CopyReports(
      path: Path, src: Fields, dst: Fields, keys: seq<Key>, globalsOf: Option<Side>, p: Path)
    requires DistinctNames(keys)
    ensures p in CopyKeys(path, src, dst, keys, globalsOf).ignored <==>
              Below(path, p) && p[|path|] in NamesOf(keys) && LeftBehind(keys, globalsOf, src, p[|path|])
  {
    if keys != [] {
      var before, k := keys[..|keys|-1], keys[|keys|-1];
      CopyReports(path, src, dst, before, globalsOf, p);
      assert path + [k.name] == p <==> Below(path, p) && p[|path|] == k.name by {
        assert Below(path, p) ==> p == p[..|path|] + [p[|path|]];
      }
      if Below(path, p) && Get(src, p[|path|]).Some? {
        NotTwice(keys, p[|path|]);
        TakesOneMore(keys, globalsOf, p[|path|], Get(src, p[|path|]).value);
        if p[|path|] == k.name {
          NotNamed(before, globalsOf, k.name, Get(src, k.name).value);
        }
      }
    }
  }

  lemma NotTwice(keys: seq<Key>, name: string)
    requires keys != [] && DistinctNames(keys)
    ensures name in NamesOf(keys) <==> name in NamesOf(keys[..|keys|-1]) || name == keys[|keys|-1].name
    ensures name == keys[|keys|-1].name ==> name !in NamesOf(keys[..|keys|-1])
  {
    var names := NamesOf(keys[..|keys|-1]);
    assert NamesOf(keys) == names + [keys[|keys|-1].name];
    assert forall i :: 0 <= i < |names| ==> names[i] == keys[i].name;
  }

  lemma NotNamed(keys: seq<Key>, globalsOf: Option<Side>, name: string, item: Item)
    requires name !in NamesOf(keys)
    ensures !Takes(keys, globalsOf, name, item)
  {
    forall i | 0 <= i < |keys| ensures keys[i].name != name {
      assert NamesOf(keys)[i] == keys[i].name;
    }
  }

  /** A table copied key by key, with its unknown keys reported: everything else it has is reported. */
  lemma TableReports(path: Path, src: Fields, dst: Fields, keys: seq<Key>, p: Path)
    requires DistinctNames(keys)
    ensures p in Unknown(path, src, NamesOf(keys)) || p in CopyKeys(path, src, dst, keys, None).ignored
            <==> Below(path, p) && LeftBehind(keys, None, src, p[|path|])
  {
    UnknownIs(path, src, NamesOf(keys), p);
    CopyReports(path, src, dst, keys, None, p);
    if Below(path, p) && Get(src, p[|path|]).Some? && p[|path|] !in NamesOf(keys) {
      NotNamed(keys, None, p[|path|], Get(src, p[|path|]).value);
    }
  }

  // ----- Below the transport table -----

  predicate SubtableReports(t: Fields, sub: string, p: Path) {
    if !IsTable(Get(t, sub)) then Get(t, sub).Some? && p == ["transport", sub]
    else
      var u := Get(t, sub).value.fields;
      && Below(["transport", sub], p)
      && Get(u, p[2]).Some? && !WantedInSubtable(sub, p[2], Get(u, p[2]).value)
  }

  lemma SubtableAdds(t: Fields, dst: Fields, before: seq<string>, sub: string, p: Path)
    requires CopySubtables(t, dst, before + [sub]).Some? && IsSubtable(sub)
    ensures CopySubtables(t, dst, before).Some?
    ensures p in CopySubtables(t, dst, before + [sub]).value.ignored <==>
              p in CopySubtables(t, dst, before).value.ignored || SubtableReports(t, sub, p)
  {
    assert (before + [sub])[..|before|] == before;
    var m := CopySubtables(t, dst, before).value;
    if IsTable(Get(t, sub)) {
      var u, d := Get(t, sub).value.fields, EnsureTable(false, m.dst, sub).value;
      SubtableKeysApart(sub);
      TableReports(["transport", sub], u, d, SubtableKeys(sub), p);
      if Below(["transport", sub], p) && Get(u, p[2]).Some? {
        TakesInSubtable(sub, p[2], Get(u, p[2]).value);
      }
    }
  }

  lemma {:induction false} SubtablesReport(t: Fields, dst: Fields, subs: seq<string>, p: Path)
    requires CopySubtables(t, dst, subs).Some? && forall s :: s in subs ==> IsSubtable(s)
    ensures p in CopySubtables(t, dst, subs).value.ignored <==> exists s :: s in subs && SubtableReports(t, s, p)
  {
    if subs != [] {
      var before, sub := subs[..|subs|-1], subs[|subs|-1];
      assert subs == before + [sub];
      SubtableAdds(t, dst, before, sub, p);
      SubtablesReport(t, dst, before, p);
      assert forall s :: s in subs <==> s in before || s == sub;
    }
  }

  predicate TransportReports(t: Fields, p: Path) {
    || (Below(["transport"], p) && Get(t, p[1]).Some? && p[1] != "type" && !IsSubtable(p[1]))
    || (p == ["transport", "type"] && Get(t, "type").Some? && !WantedType(Get(t, "type").value))
    || (|p| >= 2 && p[0] == "transport" && IsSubtable(p[1]) && SubtableReports(t, p[1], p))
  }

  lemma TransportReport(t: Fields, dst: Fields, p: Path)
    requires CopyTransport(t, dst).Some?
    ensures p in CopyTransport(t, dst).value.ignored <==> TransportReports(t, p)
  {
    var typed := CopyType(t, dst);
    forall s ensures s in SUBTABLES <==> IsSubtable(s) {
      InSubtables(s);
    }
    UnknownIs(["transport"], t, ["type"] + SUBTABLES, p);
    SubtablesReport(t, typed.dst, SUBTABLES, p);
    if Get(t, "type").Some? && Get(t, "type").value.Str? {
      InSubtables(Get(t, "type").value.s);
    }
    forall s | SubtableReports(t, s, p) ensures |p| >= 2 && p[0] == "transport" && p[1] == s {
      assert Below(["transport", s], p) ==> p[..2][0] == p[0] && p[..2][1] == p[1];
    }
  }

  // ----- Below a service -----

  predicate ServiceReports(side: Side, name: string, item: Item, imported: bool, p: Path) {
    && PlainName(name) && (item.Table? || item.InlineTable?)
    && Below(["services", name], p)
    && Get(item.fields, p[2]).Some?
    && (!IsServiceKey(side, p[2]) || (imported && !WantedInService(side, p[2], Get(item.fields, p[2]).value)))
  }

  lemma KnownIff(side: Side, name: string)
    ensures name in KnownServiceKeys(side) <==> IsServiceKey(side, name)
    ensures name in NamesOf(ServiceKeys(side)) <==>
              name == "nodelay" || (side.Client? && (name == "retry_interval" || name == "prefer_ipv6"))
    ensures name in NamesOf(ServiceKeys(side)) ==>
              name != "type" && name != LocalAddress(side) && name != "token"
  {
    ServiceKeysApart(side);
    var keys := NamesOf(ServiceKeys(side));
    assert keys[0] == "nodelay";
    if side.Client? {
      assert keys == ["nodelay", "retry_interval", "prefer_ipv6"];
    } else {
      assert keys == ["nodelay"];
    }
    var all := KnownServiceKeys(side);
    assert all == ["type", LocalAddress(side), "token"] + keys;
  }

  /** The optional keys of a service that is imported. */
  lemma OptionalReport(side: Side, path: Path, f: Fields, dst: Fields, p: Path)
    requires |path| == 2
    ensures p in CopyKeys(path, f, dst, ServiceKeys(side), None).ignored <==>
              && Below(path, p) && Get(f, p[2]).Some?
              && IsServiceKey(side, p[2]) && !WantedInService(side, p[2], Get(f, p[2]).value)
  {
    ServiceKeysApart(side);
    CopyReports(path, f, dst, ServiceKeys(side), None, p);
    if Below(path, p) && Get(f, p[2]).Some? {
      KnownIff(side, p[2]);
      TakesOptional(side, p[2], Get(f, p[2]).value);
    }
  }

  lemma ServiceReport(side: Side, name: string, item: Item, defaultToken: bool, p: Path)
    ensures var e := ImportEntry(side, name, item, defaultToken);
            p in e.ignored <==> ServiceReports(side, name, item, e.result.Some?, p)
  {
    if ValidServiceName(name) && TableLike(item) {
      var f, path := item.fields, ["services", name];
      UnknownIs(path, f, KnownServiceKeys(side), p);
      if Below(path, p) {
        KnownIff(side, p[2]);
      }
      if ImportEntry(side, name, item, defaultToken).result.Some? {
        OptionalReport(side, path, f, EntryBase(side, f), p);
      }
    }
  }

  lemma {:induction false} TallyReports(src: Fields, known: seq<string>, entryOf: Entries, into: Fields, p: Path)
    ensures p in TallyUp(src, known, entryOf, into).ignored <==>
              exists k :: 0 <= k < |src| && src[k].0 !in known && p in entryOf(src[k].0, src[k].1).ignored
  {
    if src != [] {
      var before, last := src[..|src|-1], src[|src|-1];
      TallyReports(before, known, entryOf, into, p);
      assert forall k :: 0 <= k < |before| ==> before[k] == src[k];
      assert src[|src|-1] == last;
    }
  }

  // ----- The whole report -----

  /** The section's own keys that are reported. */
  ghost predicate SectionReports(side: Side, src: Fields, p: Path) {
    && |p| == 1 && Get(src, p[0]).Some?
    && if p[0] == "transport" || p[0] == "services" then !IsTable(Get(src, p[0]))
       else !WantedGlobal(side, p[0], Get(src, p[0]).value)
  }

  ghost predicate Reports(side: Side, src: Fields, section: Fields, defaultToken: Option<Item>, p: Path) {
    || SectionReports(side, src, p)
    || (IsTable(Get(src, "transport")) && TransportReports(Get(src, "transport").value.fields, p))
    || (exists k :: 0 <= k < |ServicesOf(src)| && ServicesOf(src)[k].0 !in ServiceNames(section) &&
          ServiceReports(side, ServicesOf(src)[k].0, ServicesOf(src)[k].1,
                         Importable(side, ServicesOf(src)[k].0, ServicesOf(src)[k].1, defaultToken), p))
  }

  lemma GlobalsReport(side: Side, src: Fields, section: Fields, p: Path)
    ensures || p in CopyKeys([], src, section, Globals(side), Some(side)).ignored
            || p in Unknown([], src, KnownSectionKeys(side))
            <==> |p| == 1 && Get(src, p[0]).Some? && p[0] != "transport" && p[0] != "services"
                 && !WantedGlobal(side, p[0], Get(src, p[0]).value)
  {
    var keys := Globals(side);
    GlobalsApart(side);
    CopyReports([], src, section, keys, Some(side), p);
    UnknownIs([], src, KnownSectionKeys(side), p);
    if |p| == 1 && Get(src, p[0]).Some? {
      assert p[0] in KnownSectionKeys(side) <==> p[0] in NamesOf(keys) || p[0] == "transport" || p[0] == "services";
      TakesGlobals(side, p[0], Get(src, p[0]).value);
      if p[0] !in NamesOf(keys) {
        NotNamed(keys, Some(side), p[0], Get(src, p[0]).value);
      }
    }
  }

  lemma ServicesReport(side: Side, sectionInline: bool, src: Fields, section: Fields, p: Path)
    requires ImportServices(side, sectionInline, src, section).Some?
    ensures p in ImportServices(side, sectionInline, src, section).value.1.ignored <==>
              || (p == ["services"] && Get(src, "services").Some? && !IsTable(Get(src, "services")))
              || exists k :: 0 <= k < |ServicesOf(src)| && ServicesOf(src)[k].0 !in ServiceNames(section) &&
                   ServiceReports(side, ServicesOf(src)[k].0, ServicesOf(src)[k].1,
                                  Importable(side, ServicesOf(src)[k].0, ServicesOf(src)[k].1,
                                             Get(section, "default_token")), p)
  {
    if IsTable(Get(src, "services")) {
      var f, dtp := ServicesOf(src), DefaultTokenPresent(section);
      var into := EnsureTable(sectionInline, section, "services").value;
      TallyReports(f, ServiceNames(section), EntryOf(side, dtp), into, p);
      forall k | 0 <= k < |f|
        ensures p in EntryOf(side, dtp)(f[k].0, f[k].1).ignored <==>
                  ServiceReports(side, f[k].0, f[k].1,
                                 Importable(side, f[k].0, f[k].1, Get(section, "default_token")), p)
      {
        ServiceReport(side, f[k].0, f[k].1, dtp, p);
        EntryIff(side, f[k].0, f[k].1, section);
      }
    }
  }

  lemma TransportPhaseReports(sectionInline: bool, src: Fields, section: Fields, p: Path)
    requires ImportTransport(sectionInline, src, section).Some?
    ensures p in ImportTransport(sectionInline, src, section).value.ignored <==>
              || (p == ["transport"] && Get(src, "transport").Some? && !IsTable(Get(src, "transport")))
              || (IsTable(Get(src, "transport")) && TransportReports(Get(src, "transport").value.fields, p))
  {
    if IsTable(Get(src, "transport")) {
      TransportReport(Get(src, "transport").value.fields, EnsureTable(sectionInline, section, "transport").value, p);
    }
  }

  /** A path is reported as ignored if and only if it is a key of the source that has no place in the result. */
  lemma ReportedIff(side: Side, sectionInline: bool, src: Fields, section: Fields, p: Path)
    requires ImportSection(side, sectionInline, src, section).Some?
    ensures var (section', r) := ImportSection(side, sectionInline, src, section).value;
            p in r.ignored <==> Reports(side, src, section, Get(section', "default_token"), p)
  {
    var g, m, t := Phases(side, sectionInline, src, section);
    assert "default_token" != "services" && "transport" != "services" by {
      assert |"services"| == 8 && |"default_token"| == 13 && |"transport"| == 9;
    }
    ServicesReachThirdPhase(side, sectionInline, src, section, g, m);
    assert ServiceNames(m.dst) == ServiceNames(section);
    ServicesLeaveOthers(side, sectionInline, src, m.dst, "default_token");
    GlobalsReport(side, src, section, p);
    TransportPhaseReports(sectionInline, src, g.dst, p);
    ServicesReport(side, sectionInline, src, m.dst, p);
    assert |p| == 1 ==> p == [p[0]];
    assert SectionReports(side, src, p) <==>
             || (|p| == 1 && Get(src, p[0]).Some? && p[0] != "transport" && p[0] != "services"
                 && !WantedGlobal(side, p[0], Get(src, p[0]).value))
             || (p == ["transport"] && Get(src, "transport").Some? && !IsTable(Get(src, "transport")))
             || (p == ["services"] && Get(src, "services").Some? && !IsTable(Get(src, "services")));
  }

  // ----- When an import succeeds -----

  /** There is a table at the key, or one can be made. */
  predicate HasRoom(parentInline: bool, parent: Fields, key: string) {
    match Get(parent, key)
    case None => !parentInline
    case Some(i) => i.Table?
  }

  predicate SubtablesFit(t: Fields, dst: Fields) {
    forall sub :: sub in ["tcp", "tls", "noise", "websocket"] && IsTable(Get(t, sub)) ==> HasRoom(false, dst, sub)
  }

  /** Every table of the source has a table of the target to go to. */
  predicate Fits(sectionInline: bool, src: Fields, section: Fields) {
    && (IsTable(Get(src, "transport")) ==>
          && HasRoom(sectionInline, section, "transport")
          && SubtablesFit(Get(src, "transport").value.fields, TableAt(section, "transport")))
    && (IsTable(Get(src, "services")) ==> HasRoom(sectionInline, section, "services"))
  }

  lemma {:induction false} SubtablesSucceed(t: Fields, dst: Fields, subs: seq<string>)
    requires NoRepeats(subs)
    ensures CopySubtables(t, dst, subs).Some? <==>
              forall sub :: sub in subs && IsTable(Get(t, sub)) ==> HasRoom(false, dst, sub)
  {
    if subs != [] {
      var before, last := subs[..|subs|-1], subs[|subs|-1];
      SubtablesSucceed(t, dst, before);
      assert last !in before;
      assert forall sub :: sub in subs <==> sub in before || sub == last;
      if CopySubtables(t, dst, before).Some? {
        SubtableIs(t, dst, before, last);
      }
    }
  }

  lemma TransportSucceeds(t: Fields, dst: Fields)
    ensures CopyTransport(t, dst).Some? <==> SubtablesFit(t, dst)
  {
    SubtablesApart();
    SubtablesSucceed(t, CopyType(t, dst).dst, SUBTABLES);
    forall sub | sub in SUBTABLES ensures Get(CopyType(t, dst).dst, sub) == Get(dst, sub) {
      if Get(t, "type").Some? {
        PutGet(dst, "type", Get(t, "type").value, sub);
      }
    }
    assert SUBTABLES == ["tcp", "tls", "noise", "websocket"];
  }

  lemma TransportPhaseSucceeds(sectionInline: bool, src: Fields, section: Fields)
    ensures ImportTransport(sectionInline, src, section).Some? <==>
              (IsTable(Get(src, "transport")) ==>
                 && HasRoom(sectionInline, section, "transport")
                 && SubtablesFit(Get(src, "transport").value.fields, TableAt(section, "transport")))
  {
    if IsTable(Get(src, "transport")) {
      TransportSucceeds(Get(src, "transport").value.fields, TableAt(section, "transport"));
    }
  }

  lemma ServicesPhaseSucceeds(side: Side, sectionInline: bool, src: Fields, section: Fields)
    ensures ImportServices(side, sectionInline, src, section).Some? <==>
              (IsTable(Get(src, "services")) ==> HasRoom(sectionInline, section, "services"))
  {
  }

  lemma SectionSucceedsIff(side: Side, sectionInline: bool, src: Fields, section: Fields)
    ensures ImportSection(side, sectionInline, src, section).Some? <==> Fits(sectionInline, src, section)
  {
    var g := CopyKeys([], src, section, Globals(side), Some(side));
    GlobalsApart(side);
    CopyLeavesOthers([], src, section, Globals(side), Some(side), "transport");
    CopyLeavesOthers([], src, section, Globals(side), Some(side), "services");
    TransportPhaseSucceeds(sectionInline, src, g.dst);
    var m := ImportTransport(sectionInline, src, g.dst);
    if m.Some? {
      assert "transport" != "services" by { assert |"services"| == 8 && |"transport"| == 9; }
      TransportLeavesOthers(sectionInline, src, g.dst, "services");
      ServicesPhaseSucceeds(side, sectionInline, src, m.value.dst);
    }
  }

  /** What the role section of a side starts from: the target's, or a new one with an empty services table. */
  predicate CanStart(side: Side, src: Fields, doc: Fields) {
    match Get(doc, SectionKey(side))
    case None =>
      var addr := Get(src, if side.Client? then "remote_addr" else "bind_addr");
      addr.Some? && addr.value.Str?
    case Some(i) => i.Table? || i.InlineTable?
  }

  function StartFields(side: Side, doc: Fields): Fields {
    match Get(doc, SectionKey(side))
    case Some(i) => if i.Table? || i.InlineTable? then i.fields else []
    case None => [("services", Table([]))]
  }

  /**
   An import succeeds if and only if the source has one role and it is a table, the
   target does not have the other role, there is a section to start from and a place
   for every table, and the runtime accepts the result.
   */
  lemma SucceedsIff(accepts: Fields -> bool, src: Fields, doc: Fields)
    ensures var client, server := Get(src, "client"), Get(src, "server");
            var side := if client.Some? then Client else Server;
            var item := if client.Some? then client else server;
            var all := RunImport((_: Fields) => true, src, doc);
            && (all.Ok? <==>
                  && client.Some? != server.Some?
                  && IsTable(item)
                  && Get(doc, if side.Client? then "server" else "client").None?
                  && CanStart(side, item.value.fields, doc)
                  && var inline := Get(doc, SectionKey(side)).Some? && Get(doc, SectionKey(side)).value.InlineTable?;
                     Fits(inline, item.value.fields, StartFields(side, doc)))
            && (RunImport(accepts, src, doc).Ok? <==> all.Ok? && accepts(all.value.0))
            && (RunImport(accepts, src, doc).Ok? ==> RunImport(accepts, src, doc) == all)
  {
    match DetectRole(src)
    case None =>
    case Some(side) =>
      var item := Get(src, SectionKey(side)).GetOr(Other(""));
      if TableLike(item) && CanStart(side, item.fields, doc) {
        var start := StartSection(side, item.fields, doc).value;
        SectionSucceedsIff(side, start.InlineTable?, item.fields, start.fields);
      }
  }

  /**
   What a successful import leaves: the role section is the result of importing into
   the section it started from, in the form that had, and every other key of the
   document is untouched.
   */
  lemma ResultIs(accepts: Fields -> bool, src: Fields, doc: Fields, key: string)
    requires RunImport(accepts, src, doc).Ok?
    ensures var (doc', report) := RunImport(accepts, src, doc).value;
            var side := if Get(src, "client").Some? then Client else Server;
            var own := if side.Client? then "client" else "server";
            var inline := Get(doc, own).Some? && Get(doc, own).value.InlineTable?;
            && IsTable(Get(src, own))
            && (key != own ==> Get(doc', key) == Get(doc, key))
            && IsTable(Get(doc', own)) && (Get(doc', own).value.InlineTable? <==> inline)
            && ImportSection(side, inline, Get(src, own).value.fields, StartFields(side, doc))
               == Some((Get(doc', own).value.fields, report))
  {
    SucceedsIff(accepts, src, doc);
    var side := if Get(src, "client").Some? then Client else Server;
    var item := Get(src, SectionKey(side)).value;
    var start := StartSection(side, item.fields, doc).value;
    var r := ImportSection(side, start.InlineTable?, item.fields, start.fields).value;
    PutGet(doc, SectionKey(side), WithFields(start, r.0), key);
    PutGet(doc, SectionKey(side), WithFields(start, r.0), SectionKey(side));
  }
}
