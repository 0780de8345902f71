/** Which scheduled crawler owns which concrete course provider. */
module Ownership {
  import opened Prelude
  import Host

  type Provider = Host.Provider

  const EXPERIENCE := Host.Provider("EXPERIENCE_TARGETS")
  const MUNICIPAL := Host.Provider("MUNICIPAL_RESERVATION_TARGETS")

  predicate IsAggregate(p: Provider) {
    p == EXPERIENCE || p == MUNICIPAL
  }

  /** ^[A-Z][A-Z0-9_]{0,49}$ */
  predicate IsProviderName(p: Provider) {
    && 1 <= |p.name| <= 50 && 'A' <= p.name[0] <= 'Z'
    && forall c :: c in p.name ==> 'A' <= c <= 'Z' || '0' <= c <= '9' || c == '_'
  }

  /** A capital letter, and at most 49 capital letters, digits and underscores. */
  lemma NamesMatchPattern(p: Provider)
    ensures IsProviderName(p) <==>
      && p.name != [] && p.name[0] in CAPITALS && |p.name[1..]| <= 49
      && forall i :: 0 <= i < |p.name[1..]| ==> p.name[1..][i] in CAPITALS + "0123456789_"
  {
    hide IsProviderName;
    forall c: char ensures c in CAPITALS <==> 'A' <= c <= 'Z' { LettersAreCapitals(c); }
    forall c: char ensures c in "0123456789_" <==> '0' <= c <= '9' || c == '_' { DigitsAreDigits(c); }
    NameByCharacter(p);
  }

  const CAPITALS := "ABCDEFGHIJKLMNOPQRSTUVWXYZ"

  lemma LettersAreCapitals(c: char)
    ensures c in CAPITALS <==> 'A' <= c <= 'Z'
  {
    if 'A' <= c <= 'Z' { assert CAPITALS[c as int - 65] == c; }
  }

  lemma DigitsAreDigits(c: char)
    ensures c in "0123456789_" <==> '0' <= c <= '9' || c == '_'
  {
    if '0' <= c <= '9' { assert "0123456789_"[c as int - 48] == c; }
    assert "0123456789_"[10] == '_';
  }

  lemma NameByCharacter(p: Provider)
    ensures IsProviderName(p) <==>
      && p.name != [] && 'A' <= p.name[0] <= 'Z' && |p.name[1..]| <= 49
      && forall i :: 0 <= i < |p.name[1..]| ==>
           'A' <= p.name[1..][i] <= 'Z' || '0' <= p.name[1..][i] <= '9' || p.name[1..][i] == '_'
  {
    if p.name != [] {
      assert p.name == [p.name[0]] + p.name[1..];
      assert forall i :: 0 <= i < |p.name[1..]| ==> p.name[1..][i] in p.name;
    }
  }

  /** What the two aggregates say they write, for the providers that are scheduled. */
  datatype Targets = Targets(municipal: seq<Provider>, experience: seq<Provider>)

  predicate Owns(scheduled: set<Provider>, t: Targets, owner: Provider, p: Provider) {
    || (owner == p && p in scheduled && !IsAggregate(p))
    || (owner == MUNICIPAL && MUNICIPAL in scheduled && p in t.municipal)
    || (owner == EXPERIENCE && EXPERIENCE in scheduled && p in t.experience)
  }

  /** Valid names, one owner each, and no scheduled crawler without a provider. */
  ghost predicate IsOwnership(scheduled: set<Provider>, t: Targets) {
    && (forall p :: p in scheduled ==> IsProviderName(p))
    && (forall o, p :: Owns(scheduled, t, o, p) ==> IsProviderName(p))
    && (forall o, q, p :: Owns(scheduled, t, o, p) && Owns(scheduled, t, q, p) ==> o == q)
    && (forall o :: o in scheduled ==> exists p :: Owns(scheduled, t, o, p))
  }

  ghost predicate Assignable(owners: map<Provider, Provider>, names: seq<Provider>, owner: Provider) {
    forall n :: n in names ==> IsProviderName(n) && (n in owners ==> owners[n] == owner)
  }

  ghost predicate IsAssigned(owners: map<Provider, Provider>, more: map<Provider, Provider>, names: seq<Provider>,
                             owner: Provider) {
    && (forall n :: n in more <==> n in owners || n in names)
    && (forall n :: n in more ==> more[n] == if n in names then owner else owners[n])
  }

  /** The inner function assign, for each of the names in turn. */
  method AssignAll(owners: map<Provider, Provider>, names: seq<Provider>, owner: Provider)
    returns (r: Result<map<Provider, Provider>>)
    ensures r.Ok? <==> Assignable(owners, names, owner)
    ensures r.Ok? ==> IsAssigned(owners, r.value, names, owner)
  {
    hide IsProviderName;
    var more := owners;
    for i := 0 to |names|
      invariant Assignable(owners, names[..i], owner)
      invariant IsAssigned(owners, more, names[..i], owner)
    {
      var actual := names[i];
      assert forall n :: n in names[..i + 1] <==> n in names[..i] || n == actual;
      if !IsProviderName(actual) { return Err; }
      if actual in more && more[actual] != owner { return Err; }
      more := more[actual := owner];
    }
    assert names[..|names|] == names;
    r := Ok(more);
  }

  /** The scheduled names, or Err when one is blank or two are the same. */
  method ScheduledNames(providers: seq<string>, normalize: string -> string) returns (r: Result<set<Provider>>)
    ensures var names := seq(|providers|, i requires 0 <= i < |providers| => normalize(providers[i]));
            && (r.Ok? <==> NoDuplicates(names) && "" !in names)
            && (r.Ok? ==> forall p: Provider :: p in r.value <==> p.name in names)
  {
    hide Scanned, NoDuplicates;
    ghost var names := seq(|providers|, i requires 0 <= i < |providers| => normalize(providers[i]));
    var scheduled: set<Provider> := {};
    NothingScanned();
    for i := 0 to |providers|
      invariant Scanned(scheduled, names[..i])
    {
      var name := normalize(providers[i]);
      assert names[..i + 1] == names[..i] + [name];
      ScanNext(scheduled, names[..i], name);
      if name != "" { scheduled := scheduled + {Host.Provider(name)}; }
    }
    assert names[..|providers|] == names;
    ScanSays(scheduled, names);
    if |scheduled| != |providers| { return Err; }
    r := Ok(scheduled);
  }

  /** The set holds the names but the blank one; it is as large as the list exactly if none is blank or repeated. */
  ghost predicate Scanned(scheduled: set<Provider>, names: seq<string>) {
    && (forall p: Provider :: p in scheduled <==> p.name in names && p.name != "")
    && |scheduled| <= |names|
    && (|scheduled| == |names| <==> NoDuplicates(names) && "" !in names)
  }

  lemma NothingScanned()
    ensures Scanned({}, [])
  {
  }

  lemma ScanNext(scheduled: set<Provider>, names: seq<string>, name: string)
    requires Scanned(scheduled, names)
    ensures Scanned(if name != "" then scheduled + {Host.Provider(name)} else scheduled, names + [name])
  {
    SnocNoDuplicates(names, name);
    hide NoDuplicates, ToSet;
    if name in names && name != "" { assert scheduled + {Host.Provider(name)} == scheduled; }
  }

  lemma ScanSays(scheduled: set<Provider>, names: seq<string>)
    requires Scanned(scheduled, names)
    ensures |scheduled| == |names| <==> NoDuplicates(names) && "" !in names
    ensures "" !in names ==> forall p: Provider :: p in scheduled <==> p.name in names
  {
    hide NoDuplicates;
  }

  /** The aggregates that have assigned their providers so far. */
  datatype Stage = Own | WithMunicipal | WithExperience

  predicate OwnsBy(stage: Stage, scheduled: set<Provider>, t: Targets, owner: Provider, p: Provider) {
    Owns(scheduled, t, owner, p)
    && (owner == MUNICIPAL && p in t.municipal && MUNICIPAL in scheduled ==> !stage.Own?)
    && (owner == EXPERIENCE && p in t.experience && EXPERIENCE in scheduled ==> stage.WithExperience?)
  }

  ghost predicate Represents(owners: map<Provider, Provider>, stage: Stage, scheduled: set<Provider>, t: Targets) {
    forall p, o :: (p in owners && owners[p] == o) <==> OwnsBy(stage, scheduled, t, o, p)
  }

  ghost predicate NamesValid(owners: map<Provider, Provider>) {
    forall p :: p in owners ==> IsProviderName(p)
  }

  lemma MunicipalStage(owners: map<Provider, Provider>, more: map<Provider, Provider>, scheduled: set<Provider>,
                       t: Targets)
    requires Represents(owners, Own, scheduled, t)
    requires if MUNICIPAL in scheduled
             then Assignable(owners, t.municipal, MUNICIPAL) && IsAssigned(owners, more, t.municipal, MUNICIPAL)
             else more == owners
    ensures Represents(more, WithMunicipal, scheduled, t)
    ensures NamesValid(owners) ==> NamesValid(more)
  {
    hide IsProviderName;
    assert MUNICIPAL.name != EXPERIENCE.name by { assert |MUNICIPAL.name| != |EXPERIENCE.name|; }
    forall p, o ensures (p in more && more[p] == o) <==> OwnsBy(WithMunicipal, scheduled, t, o, p) {
      assert (p in owners && owners[p] == o) <==> OwnsBy(Own, scheduled, t, o, p);
      if p in owners { assert OwnsBy(Own, scheduled, t, owners[p], p); }
    }
  }

  lemma ExperienceStage(owners: map<Provider, Provider>, more: map<Provider, Provider>, scheduled: set<Provider>,
                        t: Targets)
    requires Represents(owners, WithMunicipal, scheduled, t)
    requires if EXPERIENCE in scheduled
             then Assignable(owners, t.experience, EXPERIENCE) && IsAssigned(owners, more, t.experience, EXPERIENCE)
             else more == owners
    ensures Represents(more, WithExperience, scheduled, t)
    ensures NamesValid(owners) ==> NamesValid(more)
  {
    hide IsProviderName;
    assert MUNICIPAL.name != EXPERIENCE.name by { assert |MUNICIPAL.name| != |EXPERIENCE.name|; }
    forall p, o ensures (p in more && more[p] == o) <==> OwnsBy(WithExperience, scheduled, t, o, p) {
      assert (p in owners && owners[p] == o) <==> OwnsBy(WithMunicipal, scheduled, t, o, p);
      if p in owners { assert OwnsBy(WithMunicipal, scheduled, t, owners[p], p); }
    }
  }

  /** An assignment that fails is two owners of one provider, or a bad name. */
  lemma Conflict(owners: map<Provider, Provider>, stage: Stage, scheduled: set<Provider>, t: Targets, owner: Provider,
                 names: seq<Provider>)
    requires Represents(owners, stage, scheduled, t) && !Assignable(owners, names, owner)
    requires forall n :: n in names ==> Owns(scheduled, t, owner, n)
    ensures !IsOwnership(scheduled, t)
  {
    hide IsProviderName;
    var n :| n in names && !(IsProviderName(n) && (n in owners ==> owners[n] == owner));
    assert n in owners ==> OwnsBy(stage, scheduled, t, owners[n], n);
  }

  lemma AllAssigned(owners: map<Provider, Provider>, scheduled: set<Provider>, t: Targets)
    requires Represents(owners, WithExperience, scheduled, t) && NamesValid(owners)
    requires forall p :: p in scheduled ==> IsProviderName(p)
    ensures forall p, o :: (p in owners && owners[p] == o) <==> Owns(scheduled, t, o, p)
    ensures IsOwnership(scheduled, t) <==> forall o :: o in scheduled ==> o in owners.Values
  {
    hide IsProviderName;
    forall p, o ensures (p in owners && owners[p] == o) <==> Owns(scheduled, t, o, p) {
      assert OwnsBy(WithExperience, scheduled, t, o, p) <==> Owns(scheduled, t, o, p);
    }
    forall o ensures o in owners.Values <==> exists p :: Owns(scheduled, t, o, p) {
      if o in owners.Values {
        var p :| p in owners && owners[p] == o;
        assert Owns(scheduled, t, o, p);
      }
      if p :| Owns(scheduled, t, o, p) { assert p in owners && owners[p] == o; }
    }
  }

  /** build_course_provider_owners */
  method BuildCourseProviderOwners(scheduled: set<Provider>, t: Targets) returns (r: Result<map<Provider, Provider>>)
    ensures r.Ok? <==> IsOwnership(scheduled, t)
    ensures r.Ok? ==> forall p, o :: (p in r.value && r.value[p] == o) <==> Owns(scheduled, t, o, p)
  {
    if exists p :: p in scheduled && !IsProviderName(p) { return Err; }
    var owners: map<Provider, Provider> := map p | p in scheduled && !IsAggregate(p) :: p;
    assert Represents(owners, Own, scheduled, t) && NamesValid(owners);
    hide IsOwnership, Represents, IsProviderName, Assignable, IsAssigned, NamesValid;
    var more := owners;
    if MUNICIPAL in scheduled {
      var a := AssignAll(owners, t.municipal, MUNICIPAL);
      if a.Err? {
        Conflict(owners, Own, scheduled, t, MUNICIPAL, t.municipal);
        return Err;
      }
      more := a.value;
    }
    MunicipalStage(owners, more, scheduled, t);
    owners := more;
    if EXPERIENCE in scheduled {
      var a := AssignAll(owners, t.experience, EXPERIENCE);
      if a.Err? {
        Conflict(owners, WithMunicipal, scheduled, t, EXPERIENCE, t.experience);
        return Err;
      }
      more := a.value;
    }
    ExperienceStage(owners, more, scheduled, t);
    AllAssigned(more, scheduled, t);
    if exists o :: o in scheduled && o !in more.Values { return Err; }
    r := Ok(more);
  }
}
