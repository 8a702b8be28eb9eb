/** Matching capabilities: parsing, resolving and deriving (validator/capability.go). */
module Capabilities {
  import opened Graph

  datatype Source = Source(capability: Capability, delegation: Delegation)

  datatype Match = Match(source: Source, value: Capability)

  /** `with` and `nb` are schema readers, `derives` compares claimed with delegated. */
  datatype Descriptor = Descriptor(
    can: string,
    with: string -> Option<string>,
    nb: Nb -> Option<Nb>,
    derives: (Capability, Capability) -> bool)

  datatype Mismatch =
    | Unknown(capability: Capability)
    | Malformed(capability: Capability)
    | Escalated(claimed: Capability, delegated: Capability)

  predicate HasPrefix(s: string, prefix: string) {
    prefix <= s
  }

  predicate HasSuffix(s: string, suffix: string) {
    |suffix| <= |s| && s[|s| - |suffix|..] == suffix
  }

  function ParseCapability(desc: Descriptor, cap: Capability): Result<Capability, Mismatch> {
    if desc.can != cap.can then Err(Unknown(cap))
    else match desc.with(cap.with)
      case None => Err(Malformed(cap))
      case Some(uri) =>
        match desc.nb(cap.nb)
        case None => Err(Malformed(cap))
        case Some(nb) => Ok(Capability(cap.can, uri, nb))
  }

  /** The empty string stands for "no ability", as in the source. */
  function ResolveAbility(pattern: string, can: string): string {
    if pattern == can || pattern == "*" then can
    else if HasSuffix(pattern, "/*") && HasPrefix(can, pattern[..|pattern| - 1]) then can
    else ""
  }

  /** `pattern` covers an ability: literally, entirely, or by its namespace. */
  ghost predicate Covers(pattern: string, can: string) {
    pattern == can || pattern == "*" || exists ns: string :: pattern == ns + "/*" && ns + "/" <= can
  }

  /** A pattern resolves to the ability claimed if it covers that, and to none otherwise. */
  lemma AbilityCoveredIff(pattern: string, can: string)
    ensures ResolveAbility(pattern, can) == if Covers(pattern, can) then can else ""
  {
    if HasSuffix(pattern, "/*") {
      var ns := pattern[..|pattern| - 2];
      assert pattern == ns + "/*";
      assert pattern[..|pattern| - 1] == ns + "/";
    }
    if ns: string :| pattern == ns + "/*" && ns + "/" <= can {
      assert pattern[|pattern| - 2..] == "/*";
      assert pattern[..|pattern| - 1] == ns + "/";
    }
  }

  function ResolveResource(source: string, uri: string): string {
    if source == uri || source == "ucan:*" then uri else ""
  }

  function ResolveCapability(desc: Descriptor, claimed: Capability, cap: Capability): Result<Capability, Mismatch> {
    var can := ResolveAbility(cap.can, claimed.can);
    if can == "" then Err(Unknown(cap))
    else
      var resolved := ResolveResource(cap.with, claimed.with);
      var resource := if resolved == "" then cap.with else resolved;
      match desc.with(resource)
      case None => Err(Malformed(cap))
      case Some(uri) =>
        match desc.nb(claimed.nb)
        case None => Err(Malformed(cap))
        case Some(nb) => Ok(Capability(can, uri, nb))
  }

  predicate DefaultDerives(claimed: Capability, delegated: Capability) {
    if HasSuffix(delegated.with, "*")
    then HasPrefix(claimed.with, delegated.with[..|delegated.with| - 1])
    else delegated.with == claimed.with
  }

  /** How a delegated capability `cap` answers: with nothing claimed yet the parser
      reads it, below a claimed capability it is resolved against the claim and must
      derive it. */
  function Answer(desc: Descriptor, claimed: Option<Capability>, cap: Capability): Result<Capability, Mismatch> {
    match claimed
    case None => ParseCapability(desc, cap)
    case Some(claim) =>
      match ResolveCapability(desc, claim, cap)
      case Err(e) => Err(e)
      case Ok(value) => if desc.derives(claim, value) then Ok(value) else Err(Escalated(claim, value))
  }

  // ---- What answers ----

  /** At the top of a claim a capability answers exactly when its ability is the one
      described and both readers accept it; the value is what they read. */
  lemma AnswersTopIff(desc: Descriptor, cap: Capability, v: Capability)
    ensures Answer(desc, None, cap) == Ok(v) <==>
      && cap.can == desc.can && v.can == desc.can
      && desc.with(cap.with) == Some(v.with) && desc.nb(cap.nb) == Some(v.nb)
  {
  }

  /** The resource a delegated capability is read on: `ucan:*` stands for the one claimed. */
  function ReadOn(delegated: string, claimed: string): string {
    if delegated == "ucan:*" && claimed != "" then claimed else delegated
  }

  /** Below a claim it answers exactly when it covers the ability claimed, the readers
      accept its resource and the claimed caveats, and the value derives from the claim. */
  lemma AnswersBelowIff(desc: Descriptor, claim: Capability, cap: Capability, v: Capability)
    ensures Answer(desc, Some(claim), cap) == Ok(v) <==>
      && claim.can != "" && Covers(cap.can, claim.can) && v.can == claim.can
      && desc.with(ReadOn(cap.with, claim.with)) == Some(v.with) && desc.nb(claim.nb) == Some(v.nb)
      && desc.derives(claim, v)
  {
    hide Covers;
    AbilityCoveredIff(cap.can, claim.can);
  }

  /** `delegated` covers a resource: literally, as `ucan:*`, or as a stem with a star. */
  ghost predicate CoversResource(delegated: string, claimed: string) {
    || delegated == claimed
    || (delegated == "ucan:*" && claimed != "")
    || exists stem: string :: delegated == stem + "*" && stem <= claimed
  }

  /** Reads every resource as it stands, and derives by default. */
  ghost predicate ReadsPlainly(desc: Descriptor) {
    (forall w :: desc.with(w) == Some(w)) && (forall c, d :: desc.derives(c, d) == DefaultDerives(c, d))
  }

  /** By default a delegated capability answers exactly when it covers ability and
      resource. The value is on the claimed resource for `ucan:*` and on the delegated
      one otherwise, star and all; its caveats are read from the claim. */
  lemma DefaultAnswerIff(desc: Descriptor, claim: Capability, cap: Capability, v: Capability)
    requires ReadsPlainly(desc)
    ensures Answer(desc, Some(claim), cap) == Ok(v) <==>
      && claim.can != "" && Covers(cap.can, claim.can) && CoversResource(cap.with, claim.with)
      && desc.nb(claim.nb).Some? && v == Capability(claim.can, ReadOn(cap.with, claim.with), desc.nb(claim.nb).value)
  {
    hide Covers, Answer;
    AnswersBelowIff(desc, claim, cap, v);
    if v.with == ReadOn(cap.with, claim.with) {
      DerivesIffCovered(claim, cap.with, v);
    }
  }

  lemma DerivesIffCovered(claim: Capability, with: string, v: Capability)
    requires v.with == ReadOn(with, claim.with)
    ensures DefaultDerives(claim, v) <==> CoversResource(with, claim.with)
  {
    if HasSuffix(v.with, "*") {
      assert v.with == v.with[..|v.with| - 1] + "*";
    }
    if stem: string :| with == stem + "*" && stem <= claim.with {
      assert with[|with| - 1..] == "*" && with[..|with| - 1] == stem;
    }
  }

  /** Why a capability does not answer: another ability, a reader that refuses it, or a
      value that the claim does not derive from. */
  lemma UnansweredWhy(desc: Descriptor, claimed: Option<Capability>, cap: Capability, e: Mismatch)
    ensures Answer(desc, claimed, cap) == Err(e) <==> match e
      case Unknown(c) => c == cap && !Fits(desc, claimed, cap)
      case Malformed(c) => c == cap && Fits(desc, claimed, cap) && !Readable(desc, claimed, cap)
      case Escalated(claim, v) =>
        && claimed == Some(claim) && Fits(desc, claimed, cap) && Readable(desc, claimed, cap)
        && v == Capability(claim.can, desc.with(ReadOn(cap.with, claim.with)).value, desc.nb(claim.nb).value)
        && !desc.derives(claim, v)
  {
    hide Covers;
    if claimed.Some? {
      AbilityCoveredIff(cap.can, claimed.value.can);
    }
  }

  ghost predicate Fits(desc: Descriptor, claimed: Option<Capability>, cap: Capability) {
    match claimed
    case None => cap.can == desc.can
    case Some(claim) => claim.can != "" && Covers(cap.can, claim.can)
  }

  predicate Readable(desc: Descriptor, claimed: Option<Capability>, cap: Capability) {
    match claimed
    case None => desc.with(cap.with).Some? && desc.nb(cap.nb).Some?
    case Some(claim) => desc.with(ReadOn(cap.with, claim.with)).Some? && desc.nb(claim.nb).Some?
  }

  // ---- Selection ----

  /** The matches, delegation errors and unknown capabilities of a list of sources. */
  datatype Selection = Selection(matches: seq<Match>, errors: seq<Mismatch>, unknowns: seq<Capability>)

  function Select(desc: Descriptor, claimed: Option<Capability>, sources: seq<Source>): (r: Selection)
  {
    if sources == [] then Selection([], [], [])
    else
      var n := |sources| - 1;
      var r := Select(desc, claimed, sources[..n]);
      match Answer(desc, claimed, sources[n].capability)
      case Ok(value) => r.(matches := r.matches + [Match(sources[n], value)])
      case Err(Unknown(cap)) => r.(unknowns := r.unknowns + [cap])
      case Err(e) => r.(errors := r.errors + [e])
  }

  lemma {:induction false} SelectSplits(desc: Descriptor, claimed: Option<Capability>, sources: seq<Source>)
    ensures var r := Select(desc, claimed, sources);
      |sources| == |r.matches| + |r.errors| + |r.unknowns|
  {
    if sources != [] {
      SelectSplits(desc, claimed, sources[..|sources| - 1]);
    }
  }

  /** Every match is a source that answers. */
  lemma {:induction false} SelectFrom(desc: Descriptor, claimed: Option<Capability>, sources: seq<Source>, m: Match)
    requires m in Select(desc, claimed, sources).matches
    ensures m.source in sources && Answer(desc, claimed, m.source.capability) == Ok(m.value)
  {
    var n := |sources| - 1;
    assert sources == sources[..n] + [sources[n]];
    if m in Select(desc, claimed, sources[..n]).matches {
      SelectFrom(desc, claimed, sources[..n], m);
    }
  }

  /** Selection misses nothing: every source that answers becomes a match. */
  lemma {:induction false} SelectFinds(desc: Descriptor, claimed: Option<Capability>, sources: seq<Source>, s: Source,
          value: Capability)
    requires s in sources && Answer(desc, claimed, s.capability) == Ok(value)
    ensures Match(s, value) in Select(desc, claimed, sources).matches
  {
    var n := |sources| - 1;
    if s != sources[n] {
      assert s in sources[..n] by {
        var i :| 0 <= i < |sources| && sources[i] == s;
        assert sources[..n][i] == s;
      }
      SelectFinds(desc, claimed, sources[..n], s, value);
    }
  }

  function Joined(a: Selection, b: Selection): Selection {
    Selection(a.matches + b.matches, a.errors + b.errors, a.unknowns + b.unknowns)
  }

  lemma SelectOne(desc: Descriptor, claimed: Option<Capability>, s: Source)
    ensures Select(desc, claimed, [s]) == match Answer(desc, claimed, s.capability)
      case Ok(value) => Selection([Match(s, value)], [], [])
      case Err(Unknown(cap)) => Selection([], [], [cap])
      case Err(e) => Selection([], [e], [])
  {
    assert [s][..0] == [];
  }

  lemma SelectSnoc(desc: Descriptor, claimed: Option<Capability>, sources: seq<Source>)
    requires sources != []
    ensures var n := |sources| - 1;
      Select(desc, claimed, sources)
        == Joined(Select(desc, claimed, sources[..n]), Select(desc, claimed, [sources[n]]))
  {
    hide Answer;
    SelectOne(desc, claimed, sources[|sources| - 1]);
  }

  lemma JoinedOn(a: Selection, b: Selection, c: Selection)
    ensures Joined(a, Joined(b, c)) == Joined(Joined(a, b), c) && Joined(a, Selection([], [], [])) == a
  {
    assert a.matches + (b.matches + c.matches) == (a.matches + b.matches) + c.matches;
    assert a.errors + (b.errors + c.errors) == (a.errors + b.errors) + c.errors;
    assert a.unknowns + (b.unknowns + c.unknowns) == (a.unknowns + b.unknowns) + c.unknowns;
  }

  lemma SelectNothing(desc: Descriptor, claimed: Option<Capability>, s: seq<Source>)
    ensures Joined(Select(desc, claimed, s), Select(desc, claimed, [])) == Select(desc, claimed, s)
  {
  }

  lemma LastOfConcat(s: seq<Source>, t: seq<Source>)
    requires t != []
    ensures s + t != [] && (s + t)[|s + t| - 1] == t[|t| - 1]
    ensures (s + t)[..|s + t| - 1] == s + t[..|t| - 1]
  {
  }

  /** Selection goes source by source and keeps their order in all three lists. */
  lemma {:induction false} SelectConcat(desc: Descriptor, claimed: Option<Capability>, s: seq<Source>, t: seq<Source>)
    ensures Select(desc, claimed, s + t) == Joined(Select(desc, claimed, s), Select(desc, claimed, t))
  {
    hide Select, Joined;
    if t == [] {
      assert s + t == s;
      SelectNothing(desc, claimed, s);
    } else {
      var n := |t| - 1;
      LastOfConcat(s, t);
      SelectConcat(desc, claimed, s, t[..n]);
      SelectSnoc(desc, claimed, s + t);
      SelectSnoc(desc, claimed, t);
      JoinedOn(Select(desc, claimed, s), Select(desc, claimed, t[..n]), Select(desc, claimed, [t[n]]));
    }
  }

  /** What is reported is exactly what some source did not answer. */
  lemma {:induction false} SelectReports(desc: Descriptor, claimed: Option<Capability>, sources: seq<Source>,
          e: Mismatch)
    ensures var r := Select(desc, claimed, sources);
      (if e.Unknown? then e.capability in r.unknowns else e in r.errors)
        <==> exists s :: s in sources && Answer(desc, claimed, s.capability) == Err(e)
  {
    if sources != [] {
      var n := |sources| - 1;
      SelectReports(desc, claimed, sources[..n], e);
      assert sources == sources[..n] + [sources[n]];
    }
  }
}
