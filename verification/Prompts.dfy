/** The prompt registry: immutable versions, and the weighted assignment of A/B arms. */
module Prompts {
  import opened Seqs
  import opened Text

  datatype Template = Template(name: string, version: nat, body: string)

  type Variables = map<string, string>

  datatype PromptError = Invalid | NotFound | Conflict

  /** Template validation and rendering, neither of which looks at the registry, and the hash of (template, unit). */
  datatype Rules = Rules(
    valid: Template -> bool,
    render: (Template, Variables) -> Result<string, PromptError>,
    hash: (string, string) -> nat)

  datatype Arm = Arm(version: nat, weight: nat)

  datatype Spec = Spec(template: string, version: Option<nat>, ab: Option<seq<Arm>>, variables: Variables)

  // ---- arms ----

  function Total(arms: seq<Arm>): nat {
    if arms == [] then 0 else Total(Init(arms)) + Last(arms).weight
  }

  /** The arm a bucket falls to when the weights are laid out one after another. */
  function ArmAt(arms: seq<Arm>, bucket: nat): (i: nat)
    requires bucket < Total(arms)
    ensures i < |arms|
  {
    if bucket < Total(Init(arms)) then ArmAt(Init(arms), bucket) else |arms| - 1
  }

  lemma {:induction false} TotalGrows(arms: seq<Arm>, i: nat, j: nat)
    requires i <= j <= |arms|
    ensures Total(arms[..i]) <= Total(arms[..j])
    decreases j
  {
    if i < j {
      TotalGrows(arms, i, j - 1);
      assert Init(arms[..j]) == arms[..j - 1];
    }
  }

  /** Arm i owns exactly `weight` consecutive buckets, those after all earlier arms' buckets; a zero weight owns none. */
  lemma {:induction false} ArmOwnsItsWeight(arms: seq<Arm>, bucket: nat, i: nat)
    requires bucket < Total(arms) && i < |arms|
    ensures ArmAt(arms, bucket) == i <==> Total(arms[..i]) <= bucket < Total(arms[..i]) + arms[i].weight
  {
    var n := |arms| - 1;
    assert Init(arms) == arms[..n];
    assert Init(arms[..i + 1]) == arms[..i];
    if bucket < Total(arms[..n]) {
      if i < n {
        ArmOwnsItsWeight(arms[..n], bucket, i);
        assert arms[..n][..i] == arms[..i];
      }
    } else if i < n {
      TotalGrows(arms, i + 1, n);
    }
  }

  /** Walk the arms, taking each weight off the bucket until one exceeds it. */
  method AssignArm(rules: Rules, template: string, unit: string, arms: seq<Arm>) returns (version: nat)
    requires Total(arms) > 0
    ensures version == arms[ArmAt(arms, rules.hash(template, unit) % Total(arms))].version
  {
    var total := 0;
    var i := 0;
    while i < |arms|
      invariant 0 <= i <= |arms|
      invariant total == Total(arms[..i])
    {
      assert Init(arms[..i + 1]) == arms[..i];
      total := total + arms[i].weight;
      i := i + 1;
    }
    assert arms[..|arms|] == arms;
    var bucket: nat := rules.hash(template, unit) % total;
    ghost var all: nat := bucket;
    i := 0;
    while i < |arms|
      invariant 0 <= i <= |arms|
      invariant Total(arms[..i]) + bucket == all == rules.hash(template, unit) % Total(arms)
    {
      var weight := arms[i].weight;
      if bucket < weight {
        ArmOwnsItsWeight(arms, all, i);
        return arms[i].version;
      }
      assert Init(arms[..i + 1]) == arms[..i];
      bucket := bucket - weight;
      i := i + 1;
    }
    // the bucket is below the total, so some arm has taken it
    assert false;
  }

  // ---- the registry ----

  type Templates = map<string, map<nat, Template>>

  function Lookup(t: Templates, name: string, version: nat): Result<Template, PromptError> {
    if name in t && version in t[name] then Ok(t[name][version]) else Err(NotFound)
  }

  lemma {:induction false} GreatestExists(vs: set<nat>)
    requires vs != {}
    ensures exists v :: v in vs && forall u :: u in vs ==> u <= v
  {
    var v :| v in vs;
    var rest := vs - {v};
    assert vs == rest + {v};
    if rest != {} {
      GreatestExists(rest);
      var w :| w in rest && forall u :: u in rest ==> u <= w;
      var top := if v < w then w else v;
      assert top in vs && forall u :: u in vs ==> u <= top;
    }
  }

  function Greatest(vs: set<nat>): (v: nat)
    requires vs != {}
    ensures v in vs && forall u :: u in vs ==> u <= v
  {
    GreatestExists(vs);
    var v :| v in vs && forall u :: u in vs ==> u <= v;
    v
  }

  function Newest(t: Templates, name: string): Result<Template, PromptError> {
    if name in t && t[name].Keys != {} then Ok(t[name][Greatest(t[name].Keys)]) else Err(NotFound)
  }

  predicate SpecIsValid(spec: Spec) {
    && (exists i :: 0 <= i < |spec.template| && !IsWhitespace(spec.template[i]))
    && (spec.ab.Some? ==> spec.version.None? && Total(spec.ab.value) > 0)
  }

  /** The version a valid spec names, unless it leaves the choice to the registry. */
  function Chosen(rules: Rules, spec: Spec, unit: Option<string>): Result<Option<nat>, PromptError>
    requires SpecIsValid(spec)
  {
    if spec.version.Some? then Ok(spec.version)
    else if spec.ab.None? then Ok(None)
    else if unit.None? then Err(Invalid)
    else
      var arms := spec.ab.value;
      Ok(Some(arms[ArmAt(arms, rules.hash(spec.template, unit.value) % Total(arms))].version))
  }

  function Resolved(rules: Rules, t: Templates, spec: Spec, unit: Option<string>): Result<string, PromptError> {
    if !SpecIsValid(spec) then Err(Invalid)
    else match Chosen(rules, spec, unit)
      case Err(e) => Err(e)
      case Ok(v) =>
        match (if v.Some? then Lookup(t, spec.template, v.value) else Newest(t, spec.template))
        case Err(e) => Err(e)
        case Ok(template) => rules.render(template, spec.variables)
  }

  function Registered(rules: Rules, t: Templates, template: Template): (Result<(), PromptError>, Templates) {
    if !rules.valid(template) then (Err(Invalid), t)
    else
      var versions := if template.name in t then t[template.name] else map[];
      if template.version in versions then (Err(Conflict), t)
      else (Ok(()), t[template.name := versions[template.version := template]])
  }

  function RegisterAll(rules: Rules, t: Templates, more: seq<Template>): Templates
    decreases |more|
  {
    if more == [] then t else RegisterAll(rules, Registered(rules, t, more[0]).1, more[1..])
  }

  class PromptRegistry {
    const rules: Rules
    var templates: Templates

    constructor (rules: Rules)
      ensures this.rules == rules && templates == map[]
    {
      this.rules, templates := rules, map[];
    }

    method Register(template: Template) returns (r: Result<(), PromptError>)
      modifies this
      ensures (r, templates) == Registered(rules, old(templates), template)
    {
      if !rules.valid(template) { return Err(Invalid); }
      var versions := if template.name in templates then templates[template.name] else map[];
      if template.version in versions { return Err(Conflict); }
      templates := templates[template.name := versions[template.version := template]];
      r := Ok(());
    }

    method Resolve(spec: Spec, unit: Option<string>) returns (r: Result<string, PromptError>)
      ensures r == Resolved(rules, templates, spec, unit)
    {
      if !SpecIsValid(spec) { return Err(Invalid); }
      var template;
      if spec.version.Some? {
        template := Lookup(templates, spec.template, spec.version.value);
      } else if spec.ab.Some? {
        if unit.None? { return Err(Invalid); }
        var version := AssignArm(rules, spec.template, unit.value, spec.ab.value);
        template := Lookup(templates, spec.template, version);
      } else {
        template := Newest(templates, spec.template);
      }
      r := match template case Err(e) => Err(e) case Ok(t) => rules.render(t, spec.variables);
    }
  }

  // ---- what registering more versions can change ----

  /** A template is registered unless it is invalid or its version is taken, and then found under its name and version. */
  lemma RegisterAnswers(rules: Rules, t: Templates, template: Template, name: string, version: nat)
    ensures var (r, t') := Registered(rules, t, template);
      if !rules.valid(template) then r == Err(Invalid) && t' == t
      else if Lookup(t, template.name, template.version).Ok? then r == Err(Conflict) && t' == t
      else
        && r == Ok(())
        && Lookup(t', name, version) ==
          if name == template.name && version == template.version then Ok(template) else Lookup(t, name, version)
  {
  }

  /** A registered version is never replaced, whatever is registered later. */
  lemma {:induction false} VersionsAreImmutable(rules: Rules, t: Templates, more: seq<Template>, name: string, version: nat)
    requires Lookup(t, name, version).Ok?
    ensures Lookup(RegisterAll(rules, t, more), name, version) == Lookup(t, name, version)
    decreases |more|
  {
    if more != [] {
      VersionsAreImmutable(rules, Registered(rules, t, more[0]).1, more[1..], name, version);
    }
  }

  /** A pinned or an A/B reference that finds its version resolves the same way for ever. */
  lemma PinnedNeverDrifts(rules: Rules, t: Templates, more: seq<Template>, spec: Spec, unit: Option<string>)
    requires SpecIsValid(spec) && (spec.version.Some? || spec.ab.Some?)
    requires Chosen(rules, spec, unit).Ok? ==> Lookup(t, spec.template, Chosen(rules, spec, unit).value.value).Ok?
    ensures Resolved(rules, RegisterAll(rules, t, more), spec, unit) == Resolved(rules, t, spec, unit)
  {
    if Chosen(rules, spec, unit).Ok? {
      VersionsAreImmutable(rules, t, more, spec.template, Chosen(rules, spec, unit).value.value);
    }
  }

  /** A reference is refused unheard exactly if its template name is blank, it both pins and experiments, or no arm has weight. */
  lemma InvalidIff(spec: Spec)
    ensures !SpecIsValid(spec) <==>
      || (forall i :: 0 <= i < |spec.template| ==> IsWhitespace(spec.template[i]))
      || (spec.ab.Some? && spec.version.Some?)
      || (spec.ab.Some? && forall i :: 0 <= i < |spec.ab.value| ==> spec.ab.value[i].weight == 0)
  {
    if spec.ab.Some? { TotalIsZeroIff(spec.ab.value); }
  }

  lemma {:induction false} TotalIsZeroIff(arms: seq<Arm>)
    ensures Total(arms) == 0 <==> forall i :: 0 <= i < |arms| ==> arms[i].weight == 0
  {
    if arms != [] {
      TotalIsZeroIff(Init(arms));
      assert forall i :: 0 <= i < |arms| - 1 ==> Init(arms)[i] == arms[i];
    }
  }

  /** A reference without version and experiment renders the greatest registered version, or finds none. */
  lemma UnpinnedIsNewest(rules: Rules, t: Templates, spec: Spec, unit: Option<string>)
    requires SpecIsValid(spec) && spec.version.None? && spec.ab.None?
    ensures if spec.template in t && t[spec.template] != map[] then
        exists v :: v in t[spec.template] && (forall u :: u in t[spec.template] ==> u <= v)
          && Resolved(rules, t, spec, unit) == rules.render(t[spec.template][v], spec.variables)
      else Resolved(rules, t, spec, unit) == Err(NotFound)
  {
    if spec.template in t {
      var vs := t[spec.template];
      assert vs != map[] <==> vs.Keys != {} by { if vs.Keys == {} { assert vs == map[]; } }
      if vs.Keys != {} { assert Greatest(vs.Keys) in vs; }
    }
  }

  /** A pinned reference renders exactly that version, an experiment the version of the arm the unit falls to. */
  lemma PinnedIsThatVersion(rules: Rules, t: Templates, spec: Spec, unit: Option<string>)
    requires SpecIsValid(spec)
    ensures spec.version.Some? ==>
      Resolved(rules, t, spec, unit) ==
        if spec.template in t && spec.version.value in t[spec.template] then rules.render(t[spec.template][spec.version.value], spec.variables)
        else Err(NotFound)
    ensures spec.ab.Some? && unit.None? ==> Resolved(rules, t, spec, unit) == Err(Invalid)
    ensures spec.ab.Some? && unit.Some? ==>
      var arms := spec.ab.value;
      var v := arms[ArmAt(arms, rules.hash(spec.template, unit.value) % Total(arms))].version;
      Resolved(rules, t, spec, unit) ==
        if spec.template in t && v in t[spec.template] then rules.render(t[spec.template][v], spec.variables) else Err(NotFound)
  {
  }

  /** The newest version moves exactly when a valid, greater version of the same name is registered. */
  lemma NewestMovesIff(rules: Rules, t: Templates, template: Template, name: string)
    requires Newest(t, name).Ok?
    ensures Newest(Registered(rules, t, template).1, name) ==
      if rules.valid(template) && template.name == name && template.version > Greatest(t[name].Keys)
      then Ok(template) else Newest(t, name)
  {
    var (r, t') := Registered(rules, t, template);
    if r.Ok? && template.name == name {
      assert t'[name].Keys == t[name].Keys + {template.version};
      GreatestIsUnique(t'[name].Keys, if template.version > Greatest(t[name].Keys) then template.version else Greatest(t[name].Keys));
    }
  }

  lemma GreatestIsUnique(vs: set<nat>, v: nat)
    requires v in vs && forall u :: u in vs ==> u <= v
    ensures Greatest(vs) == v
  {
  }
}
