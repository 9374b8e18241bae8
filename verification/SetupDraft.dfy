/** Saving one port's settings into a configuration draft (crates/serial-setup/src/lib.rs). */
module SetupDraft {
  import opened Wrappers
  import opened Numerals

  // ---------- names ----------

  function Suffixed(prefix: string, index: nat): string {
    prefix + "-" + Digits(index)
  }

  lemma SuffixedIs(prefix: string, index: nat)
    ensures Suffixed(prefix, index) == prefix + "-" + Digits(index)
  {
  }

  lemma SuffixesDiffer(prefix: string, a: nat, b: nat)
    requires Suffixed(prefix, a) == Suffixed(prefix, b)
    ensures a == b
  {
    var head := prefix + "-";
    assert Suffixed(prefix, a)[|head|..] == Digits(a) && Suffixed(prefix, b)[|head|..] == Digits(b);
    DigitsRead(a);
    DigitsRead(b);
  }

  function Taken(prefix: string, low: nat, high: nat): (s: set<string>)
    requires low <= high
    decreases high - low
  {
    if low == high then {} else {Suffixed(prefix, low)} + Taken(prefix, low + 1, high)
  }

  lemma {:induction false} TakenSize(prefix: string, low: nat, high: nat)
    requires low <= high
    ensures |Taken(prefix, low, high)| == high - low
    ensures forall name :: name in Taken(prefix, low, high) <==>
              exists k: nat :: low <= k < high && name == Suffixed(prefix, k)
    decreases high - low
  {
    hide Suffixed;
    if low < high {
      TakenSize(prefix, low + 1, high);
      if Suffixed(prefix, low) in Taken(prefix, low + 1, high) {
        var k: nat :| low + 1 <= k < high && Suffixed(prefix, low) == Suffixed(prefix, k);
        SuffixesDiffer(prefix, low, k);
      }
    }
  }

  lemma {:induction false} NamesInList(s: set<string>, names: seq<string>)
    requires forall name | name in s :: name in names
    ensures |s| <= |names|
    decreases |names|
  {
    if names == [] {
      assert s == {};
    } else {
      NamesInList(s - {names[0]}, names[1..]);
      assert names == [names[0]] + names[1..];
    }
  }

  /** Pigeonhole: a list of n names cannot hold more than n suffixed ones. */
  lemma SuffixesRunOut(prefix: string, names: seq<string>, high: nat)
    requires 2 <= high && forall k: nat | 2 <= k < high :: Suffixed(prefix, k) in names
    ensures high - 2 <= |names|
  {
    hide Suffixed;
    TakenSize(prefix, 2, high);
    NamesInList(Taken(prefix, 2, high), names);
  }

  /** `name` is the prefix, or if that is taken the first of its suffixed names, from 2 on, that is free. */
  ghost predicate Free(prefix: string, names: seq<string>, name: string) {
    && name !in names
    && (prefix !in names ==> name == prefix)
    && (prefix in names ==>
          exists index: nat :: index >= 2 && name == Suffixed(prefix, index) == prefix + "-" + Digits(index)
                               && forall k: nat | 2 <= k < index :: Suffixed(prefix, k) in names)
  }

  lemma OneIsFree(prefix: string, names: seq<string>, a: string, b: string)
    requires Free(prefix, names, a) && Free(prefix, names, b)
    ensures a == b
  {
    hide Suffixed;
    if prefix in names {
      var i: nat :| i >= 2 && a == Suffixed(prefix, i) && forall k: nat | 2 <= k < i :: Suffixed(prefix, k) in names;
      var j: nat :| j >= 2 && b == Suffixed(prefix, j) && forall k: nat | 2 <= k < j :: Suffixed(prefix, k) in names;
      assert !(i < j) && !(j < i);
    }
  }

  /** `unique`. */
  method Unique(prefix: string, names: seq<string>) returns (name: string)
    ensures Free(prefix, names, name)
  {
    hide Suffixed;
    if prefix !in names { return prefix; }
    var index := 2;
    while Suffixed(prefix, index) in names
      invariant 2 <= index && forall k: nat | 2 <= k < index :: Suffixed(prefix, k) in names
      decreases |names| + 2 - index
    {
      SuffixesRunOut(prefix, names, index + 1);
      index := index + 1;
    }
    SuffixedIs(prefix, index);
    return Suffixed(prefix, index);
  }

  // ---------- profiles ----------

  /** A named list of settings, of a transport or of a model. */
  datatype Profile<S> = Profile(name: string, settings: S)

  datatype TransportSettings = TransportSettings(baudRate: nat, dataBits: nat, parity: nat, stopBits: nat,
                                                 flowControl: nat, dtr: bool, rts: bool, autoOpen: bool)

  datatype ModelSettings = ModelSettings(shellPrompt: Option<string>, ubootPrompt: Option<string>,
                                         writeEol: Option<string>, echo: Option<nat>,
                                         writeChunkSize: Option<nat>, writeChunkDelayMs: Option<nat>)

  datatype Slot = Slot(port: string, transport: Option<string>, model: Option<string>, family: Option<string>,
                       modelName: Option<string>, enabled: bool)

  datatype Family = Family(name: string, modelNames: seq<string>)

  function Names<S>(profiles: seq<Profile<S>>): (names: seq<string>)
    ensures |names| == |profiles| && forall i :: 0 <= i < |profiles| ==> names[i] == profiles[i].name
  {
    seq(|profiles|, i requires 0 <= i < |profiles| => profiles[i].name)
  }

  predicate UniqueNames<S>(profiles: seq<Profile<S>>) {
    forall i, j :: 0 <= i < j < |profiles| ==> profiles[i].name != profiles[j].name
  }

  /** What a name resolves to: the first profile that bears it. */
  function Resolve<S>(profiles: seq<Profile<S>>, name: string): Option<S> {
    if profiles == [] then None
    else if profiles[0].name == name then Some(profiles[0].settings)
    else Resolve(profiles[1..], name)
  }

  lemma {:induction false} ResolveNamed<S>(profiles: seq<Profile<S>>, i: nat)
    requires UniqueNames(profiles) && i < |profiles|
    ensures Resolve(profiles, profiles[i].name) == Some(profiles[i].settings)
  {
    if i > 0 {
      assert profiles[1..][i - 1] == profiles[i];
      ResolveNamed(profiles[1..], i - 1);
    }
  }

  /** A profile under a new name leaves every other name as it was. */
  lemma {:induction false} ResolveAppended<S>(profiles: seq<Profile<S>>, p: Profile<S>, name: string)
    requires p.name !in Names(profiles)
    ensures Resolve(profiles + [p], name) == if name == p.name then Some(p.settings) else Resolve(profiles, name)
  {
    if profiles == [] {
      assert profiles + [p] == [p] && [p][1..] == [];
    } else {
      assert (profiles + [p])[0] == profiles[0] && (profiles + [p])[1..] == profiles[1..] + [p];
      assert Names(profiles)[0] == profiles[0].name;
      forall i | 0 <= i < |profiles[1..]| ensures Names(profiles[1..])[i] != p.name {
        assert Names(profiles[1..])[i] == profiles[i + 1].name == Names(profiles)[i + 1];
      }
      ResolveAppended(profiles[1..], p, name);
    }
  }

  lemma AppendedUnique<S>(profiles: seq<Profile<S>>, p: Profile<S>)
    requires UniqueNames(profiles) && p.name !in Names(profiles)
    ensures UniqueNames(profiles + [p])
  {
    forall i | 0 <= i < |profiles| ensures profiles[i].name != p.name {
      assert Names(profiles)[i] == profiles[i].name;
    }
  }

  /** `profiles` with settings a port asks for under `name`: no existing profile is changed or moved, at
      most one is added, and the name stands for the settings. */
  ghost predicate Offers<S(!new)>(before: seq<Profile<S>>, after: seq<Profile<S>>, name: string, settings: S) {
    && before <= after && |after| <= |before| + 1 && Profile(name, settings) in after
    && (UniqueNames(before) ==> UniqueNames(after) && Resolve(after, name) == Some(settings))
    && forall other :: Resolve(before, other).Some? ==> Resolve(after, other) == Resolve(before, other)
  }

  lemma OffersMean<S(!new)>(before: seq<Profile<S>>, after: seq<Profile<S>>, name: string, settings: S)
    requires Offers(before, after, name, settings)
    ensures before <= after && Profile(name, settings) in after
    ensures UniqueNames(before) ==> UniqueNames(after) && Resolve(after, name) == Some(settings)
    ensures forall other :: Resolve(before, other).Some? ==> Resolve(after, other) == Resolve(before, other)
  {
    hide Resolve, UniqueNames;
  }

  predicate IsFirst<S(==)>(profiles: seq<Profile<S>>, settings: S, i: nat) {
    i < |profiles| && profiles[i].settings == settings && forall j | 0 <= j < i :: profiles[j].settings != settings
  }

  /** The first profile with equal settings is reused; if there is none, one is added under a free name. */
  ghost predicate Chosen<S>(before: seq<Profile<S>>, prefix: string, settings: S, after: seq<Profile<S>>,
                            name: string) {
    && (forall i: nat | IsFirst(before, settings, i) :: after == before && name == before[i].name)
    && ((forall i | 0 <= i < |before| :: before[i].settings != settings) ==>
          after == before + [Profile(name, settings)] && Free(prefix, Names(before), name))
  }

  /** Reuse a value-equivalent profile or add one under a fresh name; never overwrite a shared one. */
  method FindOrAdd<S(==, !new)>(profiles: seq<Profile<S>>, prefix: string, settings: S)
      returns (after: seq<Profile<S>>, name: string)
    ensures Offers(profiles, after, name, settings)
    ensures Chosen(profiles, prefix, settings, after, name)
  {
    for i := 0 to |profiles|
      invariant forall j :: 0 <= j < i ==> profiles[j].settings != settings
    {
      if profiles[i].settings == settings {
        if UniqueNames(profiles) { ResolveNamed(profiles, i); }
        assert IsFirst(profiles, settings, i);
        return profiles, profiles[i].name;
      }
    }
    name := Unique(prefix, Names(profiles));
    assert Free(prefix, Names(profiles), name);
    var p := Profile(name, settings);
    after := profiles + [p];
    if UniqueNames(profiles) { AppendedUnique(profiles, p); }
    forall other ensures Resolve(after, other) == if other == name then Some(settings) else Resolve(profiles, other) {
      ResolveAppended(profiles, p, other);
    }
    forall other | Resolve(profiles, other).Some? ensures other != name {
      ResolvedIsNamed(profiles, other);
    }
  }

  lemma {:induction false} ResolvedIsNamed<S>(profiles: seq<Profile<S>>, name: string)
    requires Resolve(profiles, name).Some?
    ensures name in Names(profiles)
  {
    if profiles[0].name == name {
      assert Names(profiles)[0] == name;
    } else {
      ResolvedIsNamed(profiles[1..], name);
      var i :| 0 <= i < |profiles[1..]| && Names(profiles[1..])[i] == name;
      assert Names(profiles)[i + 1] == profiles[1..][i].name;
    }
  }

  // ---------- the catalogue of identities ----------

  predicate InCatalog(families: seq<Family>, family: string, model: string) {
    exists i :: 0 <= i < |families| && families[i].name == family && model in families[i].modelNames
  }

  /** The identity is listed; nothing that was listed is lost and nothing else is added. */
  ghost predicate Lists(before: seq<Family>, after: seq<Family>, family: string, model: string) {
    forall f, m :: InCatalog(after, f, m) <==> InCatalog(before, f, m) || (f == family && m == model)
  }

  method AddIdentity(families: seq<Family>, family: string, model: string) returns (after: seq<Family>)
    ensures Lists(families, after, family, model)
    ensures |families| <= |after| && forall i :: 0 <= i < |families| ==>
              after[i].name == families[i].name && families[i].modelNames <= after[i].modelNames
  {
    for i := 0 to |families|
      invariant forall j :: 0 <= j < i ==> families[j].name != family
    {
      if families[i].name == family {
        if model in families[i].modelNames { return families; }
        after := families[i := Family(family, families[i].modelNames + [model])];
        ExtendLists(families, after, i, family, model);
        return;
      }
    }
    after := families + [Family(family, [model])];
    PushLists(families, after, family, model);
  }

  lemma ExtendLists(families: seq<Family>, after: seq<Family>, i: nat, family: string, model: string)
    requires i < |families| && families[i].name == family
             && after == families[i := Family(family, families[i].modelNames + [model])]
    ensures Lists(families, after, family, model)
  {
    forall f, m ensures InCatalog(after, f, m) <==> InCatalog(families, f, m) || (f == family && m == model) {
      if InCatalog(families, f, m) {
        var k :| 0 <= k < |families| && families[k].name == f && m in families[k].modelNames;
        assert after[k].name == f && m in after[k].modelNames;
      }
      if f == family && m == model { assert after[i].name == f && m in after[i].modelNames; }
      if InCatalog(after, f, m) {
        var k :| 0 <= k < |after| && after[k].name == f && m in after[k].modelNames;
        assert k != i ==> families[k] == after[k];
      }
    }
  }

  lemma PushLists(families: seq<Family>, after: seq<Family>, family: string, model: string)
    requires after == families + [Family(family, [model])]
    ensures Lists(families, after, family, model)
  {
    forall f, m ensures InCatalog(after, f, m) <==> InCatalog(families, f, m) || (f == family && m == model) {
      if InCatalog(families, f, m) {
        var k :| 0 <= k < |families| && families[k].name == f && m in families[k].modelNames;
        assert after[k] == families[k];
      }
      assert after[|families|] == Family(family, [model]);
    }
  }

  // ---------- the draft ----------

  class Draft {
    var ports: seq<Slot>
    var transportProfiles: seq<Profile<TransportSettings>>
    var modelProfiles: seq<Profile<ModelSettings>>
    var modelFamilies: seq<Family>

    predicate Resolvable(slot: Slot)
      reads this
    {
      && (slot.transport.Some? ==> Resolve(transportProfiles, slot.transport.value).Some?)
      && (slot.model.Some? ==> Resolve(modelProfiles, slot.model.value).Some?)
    }

    /** Profile names are unique and every port's names resolve. */
    ghost predicate Consistent()
      reads this
    {
      && UniqueNames(transportProfiles) && UniqueNames(modelProfiles)
      && forall i :: 0 <= i < |ports| ==> Resolvable(ports[i])
    }

    /** The settings a slot stands for. */
    function Transport(slot: Slot): Option<TransportSettings>
      reads this
    {
      if slot.transport.Some? then Resolve(transportProfiles, slot.transport.value) else None
    }

    function Model(slot: Slot): Option<ModelSettings>
      reads this
    {
      if slot.model.Some? then Resolve(modelProfiles, slot.model.value) else None
    }

    constructor ()
      ensures ports == [] && transportProfiles == [] && modelProfiles == [] && modelFamilies == [] && Consistent()
    {
      ports, transportProfiles, modelProfiles, modelFamilies := [], [], [], [];
    }

    /** `save_port_draft`. */
    method SavePortDraft(port: string, existing: Option<Slot>, transport: TransportSettings, model: ModelSettings,
                         identity: Option<(string, string)>)
      returns (ghost at: nat)
      modifies this
      // no profile is changed, moved or removed
      ensures old(transportProfiles) <= transportProfiles && old(modelProfiles) <= modelProfiles
      // equal settings share a profile, and new ones get a name of their own
      ensures at < |ports| && ports[at].transport.Some? && ports[at].model.Some?
      ensures Chosen(old(transportProfiles), "uart-" + Digits(transport.baudRate), transport, transportProfiles,
                     ports[at].transport.value)
      ensures Chosen(old(modelProfiles), "serial-input", model, modelProfiles, ports[at].model.value)
      // the edited port names profiles with what was asked, and in a consistent draft stands for it
      ensures ports[at].port == port
      ensures Profile(ports[at].transport.value, transport) in transportProfiles
              && Profile(ports[at].model.value, model) in modelProfiles
      ensures old(Consistent()) ==>
                Consistent() && Transport(ports[at]) == Some(transport) && Model(ports[at]) == Some(model)
      ensures ports[at].enabled == (if existing.Some? then existing.value.enabled else true)
      ensures ports[at].family == (if identity.Some? then Some(identity.value.0) else None)
      ensures ports[at].modelName == (if identity.Some? then Some(identity.value.1) else None)
      // every other entry is the same, and stands for the same if its names resolved
      ensures if at < |old(ports)| then |ports| == |old(ports)| && old(ports)[at].port == port
              else at == |old(ports)| && |ports| == at + 1
      ensures forall i :: 0 <= i < at && i < |old(ports)| ==> old(ports)[i].port != port
      ensures forall i :: 0 <= i < |old(ports)| && i != at ==> ports[i] == old(ports)[i]
      ensures forall i :: 0 <= i < |old(ports)| && i != at && old(Resolvable(ports[i])) ==>
                Resolvable(ports[i]) && Transport(ports[i]) == old(Transport(ports[i]))
                && Model(ports[i]) == old(Model(ports[i]))
      // the identity is listed, and nothing else has changed in the catalogue
      ensures identity.Some? ==> Lists(old(modelFamilies), modelFamilies, identity.value.0, identity.value.1)
      ensures identity.None? ==> modelFamilies == old(modelFamilies)
    {
      hide Offers, Chosen, Resolve, UniqueNames, Names, Lists, Digits;
      ghost var transportsBefore, modelsBefore := transportProfiles, modelProfiles;
      var transportName, modelName;
      transportProfiles, transportName := FindOrAdd(transportProfiles, "uart-" + Digits(transport.baudRate), transport);
      modelProfiles, modelName := FindOrAdd(modelProfiles, "serial-input", model);
      OffersMean(transportsBefore, transportProfiles, transportName, transport);
      OffersMean(modelsBefore, modelProfiles, modelName, model);
      if identity.Some? { modelFamilies := AddIdentity(modelFamilies, identity.value.0, identity.value.1); }
      var slot := Slot(port, Some(transportName), Some(modelName),
                       if identity.Some? then Some(identity.value.0) else None,
                       if identity.Some? then Some(identity.value.1) else None,
                       if existing.Some? then existing.value.enabled else true);
      at := PlaceSlot(slot);
    }

    method PlaceSlot(slot: Slot) returns (at: nat)
      modifies `ports
      ensures at < |ports| && ports[at] == slot
      ensures if at < |old(ports)| then |ports| == |old(ports)| && old(ports)[at].port == slot.port
              else at == |old(ports)| && |ports| == at + 1
      ensures forall i :: 0 <= i < at && i < |old(ports)| ==> old(ports)[i].port != slot.port
      ensures forall i :: 0 <= i < |old(ports)| && i != at ==> ports[i] == old(ports)[i]
    {
      for i := 0 to |ports|
        invariant forall j :: 0 <= j < i ==> ports[j].port != slot.port
      {
        if ports[i].port == slot.port {
          ports := ports[i := slot];
          return i;
        }
      }
      at := |ports|;
      ports := ports + [slot];
    }
  }
}
