/**
 Path rules (internal/api/path_rules.go, internal/store/path_rules.go, and the CIDR helpers of
 internal/api/project_actions.go): per-prefix overrides of a project's ingress gate, and who may set what.
 */
module PathRules {
  import opened Wrappers
  import opened Sorting
  import opened Text
  import opened Ipv4
  import opened EgressRules

  // ----- actors -----

  datatype Actor =
    | TokenActor(projectScoped: bool, adminScope: bool)
    | UserActor(isAdmin: bool, id: nat)
    | Nobody

  predicate IsAdmin(a: Actor) { (a.UserActor? && a.isAdmin) || (a.TokenActor? && a.adminScope) }

  predicate CanManage(a: Actor, owner: nat) {
    match a
    case TokenActor(projectScoped, _) => !projectScoped
    case UserActor(isAdmin, id) => isAdmin || id == owner
    case Nobody => false
  }

  // ----- the table -----

  type RuleId = nat
  type ProjectId = nat

  datatype RuleMode = NoAuth | Token

  /** `external` are the sources admitted on this prefix besides the project's own list. */
  datatype PathRule = PathRule(prefix: string, mode: RuleMode, external: seq<string>)

  datatype Row = Row(project: ProjectId, rule: PathRule)

  type Table = map<RuleId, Row>

  /** UNIQUE (project_id, path_prefix) would be violated by writing `prefix` to row `id`. */
  predicate Taken(t: Table, project: ProjectId, prefix: string, id: RuleId) {
    exists j | j in t :: j != id && t[j].project == project && t[j].rule.prefix == prefix
  }

  // ----- request bodies -----

  datatype Input = Input(prefix: string, mode: string, external: Option<seq<string>>)

  datatype InputFault = PrefixMissing | PrefixNotAbsolute | PrefixMalformed | PrefixTooLong | UnknownMode

  const MAX_PREFIX := 200

  predicate HasDoubleSlash(s: string) { exists k | 0 <= k < |s| - 1 :: s[k] == '/' && s[k + 1] == '/' }

  /** Two slashes in a row. */
  lemma DoubleSlashIs(s: string)
    ensures HasDoubleSlash(s) <==> exists before, after :: s == before + "//" + after
  {
    if k :| 0 <= k < |s| - 1 && s[k] == '/' && s[k + 1] == '/' {
      assert s == s[..k] + "//" + s[k + 2..];
    }
    if before, after :| s == before + "//" + after {
      assert s[|before|] == '/' && s[|before| + 1] == '/';
    }
  }

  function ModeOf(text: string): Option<RuleMode> {
    if text == "no_auth" then Some(NoAuth) else if text == "token" then Some(Token) else None
  }

  predicate IsPrefix(p: string) {
    p != "" && p[0] == '/' && !HasDoubleSlash(p) && ' ' !in p && |p| <= MAX_PREFIX
  }

  /** normalisePathRuleInput, up to the messages. */
  function InputFaultOf(rawPrefix: string, rawMode: string): (f: Option<InputFault>)
    ensures f.None? <==> IsPrefix(Trim(rawPrefix)) && ModeOf(Trim(rawMode)).Some?
    ensures f == Some(UnknownMode) <==>
              IsPrefix(Trim(rawPrefix)) && Trim(rawMode) != "no_auth" && Trim(rawMode) != "token"
    ensures var p := Trim(rawPrefix);
            && (f == Some(PrefixMissing) <==> p == "")
            && (f == Some(PrefixNotAbsolute) <==> p != "" && p[0] != '/')
            && (f == Some(PrefixMalformed) <==> p != "" && p[0] == '/' && (HasDoubleSlash(p) || ' ' in p))
            && (f == Some(PrefixTooLong) <==> |p| > 200 && p[0] == '/' && !HasDoubleSlash(p) && ' ' !in p)
  {
    var prefix := Trim(rawPrefix);
    if prefix == "" then Some(PrefixMissing)
    else if prefix[0] != '/' then Some(PrefixNotAbsolute)
    else if HasDoubleSlash(prefix) || ' ' in prefix then Some(PrefixMalformed)
    else if |prefix| > MAX_PREFIX then Some(PrefixTooLong)
    else if ModeOf(Trim(rawMode)).None? then Some(UnknownMode)
    else None
  }

  predicate IsWorld(c: string) { ParseCidr(Trim(c)).Some? && ParseCidr(Trim(c)).value.len == 0 }

  predicate HasWorld(cidrs: seq<string>) { exists c | c in cidrs :: IsWorld(c) }

  method HasWorldCidr(cidrs: seq<string>) returns (world: bool)
    ensures world <==> HasWorld(cidrs)
  {
    for i := 0 to |cidrs|
      invariant forall j | 0 <= j < i :: !IsWorld(cidrs[j])
    {
      if IsWorld(cidrs[i]) {
        assert cidrs[i] in cidrs;
        return true;
      }
    }
    world := false;
  }

  // ----- lists of sources -----

  ghost predicate Normalised(raws: seq<string>, c: string) {
    exists raw :: raw in raws && Trim(raw) != "" && NormaliseCidr(raw) == Accepted(c)
  }

  ghost predicate Readable(raws: seq<string>) {
    forall raw | raw in raws && Trim(raw) != "" :: NormaliseCidr(raw).Accepted?
  }

  /** The normal forms of the non-blank entries, each once. */
  ghost predicate NormalForms(raws: seq<string>, out: seq<string>) {
    && (forall c :: c in out <==> Normalised(raws, c))
    && (forall j, k | 0 <= j < k < |out| :: out[j] != out[k])
  }

  method NormaliseCidrs(raws: seq<string>) returns (out: Checked<seq<string>>)
    ensures out.Accepted? <==> Readable(raws)
    ensures out.Accepted? ==> NormalForms(raws, out.value)
  {
    hide NormaliseCidr, Trim;
    var cidrs: seq<string> := [];
    for i := 0 to |raws|
      invariant Readable(raws[..i]) && NormalForms(raws[..i], cidrs)
    {
      NormalisedSnoc(raws, i);
      if Trim(raws[i]) == "" {
        continue;
      }
      var c := NormaliseCidr(raws[i]);
      if c.Rejected? {
        assert raws[i] in raws;
        return Rejected(c.why);
      }
      if c.value in cidrs {
        continue;
      }
      cidrs := cidrs + [c.value];
    }
    assert raws[..|raws|] == raws;
    out := Accepted(cidrs);
  }

  lemma NormalisedSnoc(raws: seq<string>, i: nat)
    requires i < |raws|
    ensures Readable(raws[..i + 1]) <==> Readable(raws[..i]) && (Trim(raws[i]) != "" ==> NormaliseCidr(raws[i]).Accepted?)
    ensures forall c :: Normalised(raws[..i + 1], c)
                        <==> Normalised(raws[..i], c) || (Trim(raws[i]) != "" && NormaliseCidr(raws[i]) == Accepted(c))
  {
    hide NormaliseCidr, Trim;
    assert raws[..i + 1] == raws[..i] + [raws[i]];
    assert forall raw :: raw in raws[..i + 1] <==> raw in raws[..i] || raw == raws[i];
  }

  /** What a stored list of external sources looks like. */
  ghost predicate GoodExternal(cidrs: seq<string>) {
    forall c | c in cidrs :: ParseCidr(c).Some? && ParseCidr(c).value.len > 0 && Trim(c) == c
  }

  lemma NormalFormIsTrimmed(raw: string, c: string)
    requires NormaliseCidr(raw) == Accepted(c)
    ensures ParseCidr(c).Some? && Trim(c) == c
  {
    var t := Trim(raw);
    TrimIdempotent(raw);
    if '/' !in t {
      hide Trim, ParseCidr;
      ParseIpHasNoSlash(t);
      HostBlock(t);
      assert c[0] == t[0] && c[|c| - 1] == '2' && !IsSpace(c[0]);
      TrimFixes(c);
    }
  }

  lemma NormalFormsAreGood(raws: seq<string>, out: seq<string>)
    requires NormalForms(raws, out) && !HasWorld(out)
    ensures GoodExternal(out)
  {
    hide NormaliseCidr, ParseCidr, Trim;
    forall c | c in out ensures ParseCidr(c).Some? && ParseCidr(c).value.len > 0 && Trim(c) == c {
      assert Normalised(raws, c);
      var raw :| raw in raws && Trim(raw) != "" && NormaliseCidr(raw) == Accepted(c);
      NormalFormIsTrimmed(raw, c);
      assert !IsWorld(c);
    }
  }

  // ----- answers -----

  datatype Answer =
    | NotAuthorised | BadInput(fault: InputFault) | BadCidr | AdminOnly | WorldOpen | TokenRequired | Duplicate | NotFound | Done

  /** Some entry is not blank. */
  ghost predicate AnySource(raws: seq<string>) { exists raw :: raw in raws && Trim(raw) != "" }

  /** Some entry is a block of length zero. */
  ghost predicate AsksForWorld(raws: seq<string>) {
    exists raw :: raw in raws && ParseCidr(Trim(raw)).Some? && ParseCidr(Trim(raw)).value.len == 0
  }

  /** The request's sources may be stored: none at all, or an admin's, none world-open, in token mode. */
  ghost predicate SourcesPass(actor: Actor, mode: RuleMode, raws: seq<string>) {
    Readable(raws) && (AnySource(raws) ==> IsAdmin(actor) && !AsksForWorld(raws) && mode.Token?)
  }

  /** Why a list is refused: the first of four reasons that applies, told from the request alone. */
  ghost predicate Refusal(actor: Actor, mode: RuleMode, raws: seq<string>, why: Answer) {
    match why
    case BadCidr => !Readable(raws)
    case AdminOnly => Readable(raws) && AnySource(raws) && !IsAdmin(actor)
    case WorldOpen => Readable(raws) && AsksForWorld(raws) && IsAdmin(actor)
    case TokenRequired =>
      Readable(raws) && AnySource(raws) && !AsksForWorld(raws) && IsAdmin(actor) && !mode.Token?
    case _ => false
  }

  /** What the normal forms say about the entries they come from. */
  lemma NormalFormsTell(raws: seq<string>, out: seq<string>)
    requires Readable(raws) && NormalForms(raws, out)
    ensures out != [] <==> AnySource(raws)
    ensures HasWorld(out) <==> AsksForWorld(raws)
    ensures AsksForWorld(raws) ==> AnySource(raws)
  {
    hide NormaliseCidr, ParseCidr, Trim;
    if raw :| raw in raws && Trim(raw) != "" {
      assert Normalised(raws, NormaliseCidr(raw).value);
    }
    if out != [] {
      assert Normalised(raws, out[0]);
    }
    if raw :| raw in raws && ParseCidr(Trim(raw)).Some? && ParseCidr(Trim(raw)).value.len == 0 {
      BlankIsNoBlock();
      TrimIdempotent(raw);
      assert Normalised(raws, Trim(raw)) && IsWorld(Trim(raw));
    }
    if c :| c in out && IsWorld(c) {
      assert Normalised(raws, c);
      var raw :| raw in raws && Trim(raw) != "" && NormaliseCidr(raw) == Accepted(c);
      NormalFormIsTrimmed(raw, c);
      assert ParseCidr(Trim(raw)).Some?;
    }
  }

  lemma BlankIsNoBlock()
    ensures ParseCidr("").None?
  {
  }

  /** checkPathRuleCIDRs: the list to store, or why not. */
  method CheckExternal(actor: Actor, mode: RuleMode, raws: seq<string>) returns (cidrs: seq<string>,
      fault: Option<Answer>)
    ensures fault.None? <==> SourcesPass(actor, mode, raws)
    ensures fault.None? ==> MayStore(actor, mode, raws, cidrs)
    ensures forall why :: fault == Some(why) <==> Refusal(actor, mode, raws, why)
    ensures fault.Some? ==> cidrs == []
  {
    hide Readable, NormalForms, HasWorld, AsksForWorld, AnySource, IsAdmin;
    var list := NormaliseCidrs(raws);
    if list.Rejected? {
      return [], Some(BadCidr);
    }
    NormalFormsTell(raws, list.value);
    if |list.value| == 0 {
      return list.value, None;
    }
    if !IsAdmin(actor) {
      return [], Some(AdminOnly);
    }
    var world := HasWorldCidr(list.value);
    if world {
      return [], Some(WorldOpen);
    }
    if mode != Token {
      return [], Some(TokenRequired);
    }
    cidrs, fault := list.value, None;
  }

  /** External sources: normal forms of the request's; if any, then by an admin, none world-open, in token mode. */
  ghost predicate MayStore(actor: Actor, mode: RuleMode, raws: seq<string>, cidrs: seq<string>) {
    && Readable(raws) && NormalForms(raws, cidrs)
    && (cidrs != [] ==> IsAdmin(actor) && !HasWorld(cidrs) && mode.Token?)
  }

  /** A request that gets as far as its sources: by someone who manages the project, with a prefix and a mode. */
  ghost predicate WellAsked(actor: Actor, owner: nat, body: Input) {
    CanManage(actor, owner) && IsPrefix(Trim(body.prefix)) && ModeOf(Trim(body.mode)).Some?
  }

  /** The sources the request asks for, or those kept. */
  function Sources(body: Input, kept: seq<string>): seq<string> {
    if body.external.Some? then body.external.value else kept
  }

  // ----- the store and the handlers -----

  class PathRuleStore {
    var rows: Table

    constructor ()
      ensures rows == map[]
    {
      rows := map[];
    }

    method Create(id: RuleId, project: ProjectId, rule: PathRule) returns (ok: bool)
      requires id !in rows               // gen_random_uuid() is taken to be fresh
      modifies this
      ensures ok <==> !Taken(old(rows), project, rule.prefix, id)
      ensures rows == if ok then old(rows)[id := Row(project, rule)] else old(rows)
    {
      ok := !Taken(rows, project, rule.prefix, id);
      if ok {
        rows := rows[id := Row(project, rule)];
      }
    }

    method Update(project: ProjectId, id: RuleId, rule: PathRule) returns (answer: Answer)
      modifies this
      ensures answer == if !(id in old(rows) && old(rows)[id].project == project) then NotFound
                        else if Taken(old(rows), project, rule.prefix, id) then Duplicate else Done
      ensures rows == if answer.Done? then old(rows)[id := Row(project, rule)] else old(rows)
    {
      if id !in rows || rows[id].project != project {
        return NotFound;
      }
      if Taken(rows, project, rule.prefix, id) {
        return Duplicate;
      }
      rows := rows[id := Row(project, rule)];
      answer := Done;
    }

    method Delete(project: ProjectId, id: RuleId)
      modifies this
      ensures rows == if id in old(rows) && old(rows)[id].project == project then old(rows) - {id} else old(rows)
    {
      if id in rows && rows[id].project == project {
        rows := rows - {id};
      }
    }

    /** POST: a new rule. */
    method HandleCreate(actor: Actor, owner: nat, project: ProjectId, id: RuleId, body: Input)
        returns (answer: Answer)
      requires id !in rows
      modifies this
      ensures answer != Done ==> rows == old(rows)
      ensures answer == Done ==> CreatesRule(old(rows), rows, actor, owner, project, id, body)
      ensures Serves(old(rows), Request.Create(actor, owner, project, id, body), rows)
      ensures answer.NotAuthorised? <==>
                match actor
                case TokenActor(projectScoped, _) => projectScoped
                case UserActor(admin, user) => !admin && user != owner
                case Nobody => true
      ensures answer == AdminOnly ==> !(actor.UserActor? && actor.isAdmin) && !(actor.TokenActor? && actor.adminScope)
      ensures forall f :: answer == BadInput(f) <==> CanManage(actor, owner) && InputFaultOf(body.prefix, body.mode) == Some(f)
      ensures answer == Done <==>
                && WellAsked(actor, owner, body) && SourcesPass(actor, ModeOf(Trim(body.mode)).value, Sources(body, []))
                && forall j | j in old(rows) && old(rows)[j].project == project :: old(rows)[j].rule.prefix != Trim(body.prefix)
      ensures answer == Duplicate <==>
                && WellAsked(actor, owner, body) && SourcesPass(actor, ModeOf(Trim(body.mode)).value, Sources(body, []))
                && exists j :: j in old(rows) && old(rows)[j].project == project && old(rows)[j].rule.prefix == Trim(body.prefix)
      ensures answer in {BadCidr, AdminOnly, WorldOpen, TokenRequired} <==>
                WellAsked(actor, owner, body) && Refusal(actor, ModeOf(Trim(body.mode)).value, Sources(body, []), answer)
      ensures answer != NotFound
    {
      hide Trim, IsPrefix, NormalForms, Readable, AnySource, AsksForWorld, HasWorld, ModeOf;
      if !CanManage(actor, owner) {
        return NotAuthorised;
      }
      var fault := InputFaultOf(body.prefix, body.mode);
      if fault.Some? {
        return BadInput(fault.value);
      }
      var prefix, mode := Trim(body.prefix), ModeOf(Trim(body.mode)).value;
      var cidrs, refused := CheckExternal(actor, mode, Sources(body, []));
      if refused.Some? {
        return refused.value;
      }
      var ok := Create(id, project, PathRule(prefix, mode, cidrs));
      answer := if ok then Done else Duplicate;
    }

    /** PATCH: the rule's sources are read first and decide who may edit it; leaving them out keeps them. */
    method HandleUpdate(actor: Actor, owner: nat, project: ProjectId, id: RuleId, body: Input)
        returns (answer: Answer)
      modifies this
      ensures answer != Done ==> rows == old(rows)
      ensures answer == Done ==>
                UpdatesRule(old(rows), rows, actor, owner, project, id, body, Existing(old(rows), project, id))
      ensures UpdateAnswered(old(rows), actor, owner, project, id, body, Existing(old(rows), project, id), answer)
      ensures Serves(old(rows), Request.Update(actor, owner, project, id, body, Existing(old(rows), project, id)), rows)
    {
      var read := Existing(rows, project, id);
      answer := FinishUpdate(actor, owner, project, id, body, read);
    }

    /** The rest of it, with whatever the read returned: the table may have changed since, and a failed read is []. */
    method FinishUpdate(actor: Actor, owner: nat, project: ProjectId, id: RuleId, body: Input, read: seq<string>)
        returns (answer: Answer)
      modifies this
      ensures answer != Done ==> rows == old(rows)
      ensures answer == Done ==> UpdatesRule(old(rows), rows, actor, owner, project, id, body, read)
      ensures UpdateAnswered(old(rows), actor, owner, project, id, body, read, answer)
      ensures Serves(old(rows), Request.Update(actor, owner, project, id, body, read), rows)
    {
      hide Trim, IsPrefix, NormalForms, Readable, AnySource, AsksForWorld, HasWorld, ModeOf;
      if !CanManage(actor, owner) {
        return NotAuthorised;
      }
      var fault := InputFaultOf(body.prefix, body.mode);
      if fault.Some? {
        return BadInput(fault.value);
      }
      var prefix, mode := Trim(body.prefix), ModeOf(Trim(body.mode)).value;
      if read != [] && !IsAdmin(actor) {
        return AdminOnly;
      }
      var cidrs, refused := CheckExternal(actor, mode, Sources(body, read));
      if refused.Some? {
        return refused.value;
      }
      answer := Update(project, id, PathRule(prefix, mode, cidrs));
    }

    /** DELETE: silently nothing when the rule is not there. */
    method HandleDelete(actor: Actor, owner: nat, project: ProjectId, id: RuleId) returns (answer: Answer)
      modifies this
      ensures answer == if CanManage(actor, owner) then Done else NotAuthorised
      ensures Serves(old(rows), Request.Delete(actor, owner, project, id), rows)
      ensures rows == if answer.Done? && id in old(rows) && old(rows)[id].project == project then old(rows) - {id} else old(rows)
    {
      if !CanManage(actor, owner) {
        return NotAuthorised;
      }
      Delete(project, id);
      answer := Done;
    }

    /** ORDER BY length(path_prefix) DESC, path_prefix ASC */
    method ListProjectPathRules(project: ProjectId) returns (out: seq<PathRule>)
      requires UniquePrefixes(rows)
      ensures ListsRules(rows, project, out)
      ensures forall j, k | 0 <= j < k < |out| :: PrefixLe(out[j].prefix, out[k].prefix)
      ensures forall j, k | 0 <= j < k < |out| ::
                && |out[j].prefix| >= |out[k].prefix|
                && (|out[j].prefix| == |out[k].prefix| ==> StrLe(out[j].prefix, out[k].prefix))
    {
      var byPrefix := map id | id in rows && rows[id].project == project :: rows[id].rule.prefix;
      var prefixes := SortedPrefixes(byPrefix.Values);
      hide PrefixLe;
      out := [];
      for i := 0 to |prefixes|
        invariant |out| == i
        invariant forall k | 0 <= k < i :: out[k].prefix == prefixes[k] && HasRule(rows, project, out[k])
      {
        assert prefixes[i] in byPrefix.Values;
        var id :| id in rows && rows[id].project == project && rows[id].rule.prefix == prefixes[i];
        assert HasRule(rows, project, rows[id].rule);
        out := out + [rows[id].rule];
      }
      ListedRules(rows, project, out, prefixes, byPrefix);
      LongerFirst(out);
    }
  }

  /** The project has this very rule. */
  ghost predicate HasRule(t: Table, project: ProjectId, r: PathRule) {
    exists id :: id in t && t[id] == Row(project, r)
  }

  /** Exactly the project's rules, no prefix twice. */
  ghost predicate ListsRules(t: Table, project: ProjectId, out: seq<PathRule>) {
    && (forall r :: r in out <==> HasRule(t, project, r))
    && (forall j, k | 0 <= j < k < |out| :: out[j].prefix != out[k].prefix)
  }

  lemma ListedRules(t: Table, project: ProjectId, out: seq<PathRule>, prefixes: seq<string>, byPrefix: map<RuleId,
      string>)
    requires UniquePrefixes(t) && |out| == |prefixes| && Enumerates(prefixes, byPrefix.Values)
    requires byPrefix == map id | id in t && t[id].project == project :: t[id].rule.prefix
    requires forall k | 0 <= k < |out| :: out[k].prefix == prefixes[k] && HasRule(t, project, out[k])
    ensures ListsRules(t, project, out)
  {
    forall r | HasRule(t, project, r) ensures r in out {
      var id :| id in t && t[id] == Row(project, r);
      assert byPrefix[id] in byPrefix.Values;
      var k :| 0 <= k < |prefixes| && prefixes[k] == r.prefix;
      var j :| j in t && t[j] == Row(project, out[k]);
      assert j == id;
      assert out[k] == r;
    }
  }

  /** Longest first, then in byte order. */
  predicate PrefixLe(a: string, b: string) { |a| > |b| || (|a| == |b| && StrLe(a, b)) }

  lemma LongerFirst(out: seq<PathRule>)
    requires forall j, k | 0 <= j < k < |out| :: PrefixLe(out[j].prefix, out[k].prefix)
    ensures forall j, k | 0 <= j < k < |out| ::
              && |out[j].prefix| >= |out[k].prefix|
              && (|out[j].prefix| == |out[k].prefix| ==> StrLe(out[j].prefix, out[k].prefix))
  {
    hide StrLe;
  }

  lemma PrefixesAreOrdered()
    ensures TotalOrder(PrefixLe)
  {
    StringsAreOrdered();
    hide StrLe;
  }

  method SortedPrefixes(values: set<string>) returns (out: seq<string>)
    ensures Enumerates(out, values)
    ensures forall j, k | 0 <= j < k < |out| :: PrefixLe(out[j], out[k])
  {
    out := Range(values);
    PrefixesAreOrdered();
    hide TotalOrder, Sort, PrefixLe;
    SortSorts(PrefixLe, out);
    RangeThenSort(PrefixLe, out, out, values);
    out := Sort(PrefixLe, out);
  }

  // ----- what the handlers do to the table -----

  function Existing(t: Table, project: ProjectId, id: RuleId): seq<string> {
    if id in t && t[id].project == project then t[id].rule.external else []
  }

  ghost predicate CreatesRule(t: Table, t': Table, actor: Actor, owner: nat, project: ProjectId, id: RuleId,
      body: Input) {
    && CanManage(actor, owner) && id !in t
    && IsPrefix(Trim(body.prefix)) && ModeOf(Trim(body.mode)).Some? && !Taken(t, project, Trim(body.prefix), id)
    && exists cidrs ::
         && MayStore(actor, ModeOf(Trim(body.mode)).value, Sources(body, []), cidrs)
         && t' == t[id := Row(project, PathRule(Trim(body.prefix), ModeOf(Trim(body.mode)).value, cidrs))]
  }

  /** A well-formed update of a rule found to have sources, by someone who may manage the project but is no admin. */
  predicate ReservedToAdmins(actor: Actor, owner: nat, body: Input, read: seq<string>) {
    CanManage(actor, owner) && !IsAdmin(actor) && InputFaultOf(body.prefix, body.mode).None? && read != []
  }

  /** When an update gets which answer, told from the request, the read and the table before it. */
  ghost predicate UpdateAnswered(t: Table, actor: Actor, owner: nat, project: ProjectId, id: RuleId, body: Input,
      read: seq<string>, answer: Answer) {
    var there := id in t && t[id].project == project;
    var taken := exists j :: j in t && j != id && t[j].project == project && t[j].rule.prefix == Trim(body.prefix);
    var asked := WellAsked(actor, owner, body) && (read == [] || IsAdmin(actor));
    var passed := asked && SourcesPass(actor, ModeOf(Trim(body.mode)).value, Sources(body, read));
    && (answer.NotAuthorised? <==> !CanManage(actor, owner))
    && (forall f :: answer == BadInput(f) <==> CanManage(actor, owner) && InputFaultOf(body.prefix, body.mode) == Some(f))
    && (answer == NotFound <==> passed && !there)
    && (answer == Duplicate <==> passed && there && taken)
    && (answer == Done <==> passed && there && !taken)
    && (answer in {BadCidr, AdminOnly, WorldOpen, TokenRequired} <==>
          || ReservedToAdmins(actor, owner, body, read)
          || (asked && Refusal(actor, ModeOf(Trim(body.mode)).value, Sources(body, read), answer)))
    && (ReservedToAdmins(actor, owner, body, read) ==> answer == AdminOnly)
  }

  /** `read` is what the handler found as the rule's sources; it may be out of date by now. */
  ghost predicate UpdatesRule(t: Table, t': Table, actor: Actor, owner: nat, project: ProjectId, id: RuleId,
      body: Input, read: seq<string>) {
    && CanManage(actor, owner) && id in t && t[id].project == project
    && (read != [] ==> IsAdmin(actor))
    && IsPrefix(Trim(body.prefix)) && ModeOf(Trim(body.mode)).Some? && !Taken(t, project, Trim(body.prefix), id)
    && exists cidrs ::
         && MayStore(actor, ModeOf(Trim(body.mode)).value, Sources(body, read), cidrs)
         && t' == t[id := Row(project, PathRule(Trim(body.prefix), ModeOf(Trim(body.mode)).value, cidrs))]
  }

  ghost predicate DeletesRule(t: Table, t': Table, actor: Actor, owner: nat, project: ProjectId, id: RuleId) {
    CanManage(actor, owner) && t' == if id in t && t[id].project == project then t - {id} else t
  }

  // ----- every reachable table -----

  ghost predicate UniquePrefixes(t: Table) {
    forall i, j | i in t && j in t && t[i].project == t[j].project && t[i].rule.prefix == t[j].rule.prefix :: i == j
  }

  /** External sources come with token mode and are never world-open. */
  ghost predicate GoodRule(r: PathRule) {
    IsPrefix(r.prefix) && GoodExternal(r.external) && (r.external != [] ==> r.mode.Token?)
  }

  ghost predicate ValidTable(t: Table) {
    UniquePrefixes(t) && forall id | id in t :: GoodRule(t[id].rule)
  }

  datatype Request =
    | Create(actor: Actor, owner: nat, project: ProjectId, id: RuleId, body: Input)
    | Update(actor: Actor, owner: nat, project: ProjectId, id: RuleId, body: Input, read: seq<string>)
    | Delete(actor: Actor, owner: nat, project: ProjectId, id: RuleId)

  /** One handled request: the table changes as the handler allows, or not at all. */
  ghost predicate Serves(t: Table, req: Request, t': Table) {
    t' == t ||
    match req
    case Create(actor, owner, project, id, body) => CreatesRule(t, t', actor, owner, project, id, body)
    case Update(actor, owner, project, id, body, read) => UpdatesRule(t, t', actor, owner, project, id, body, read)
    case Delete(actor, owner, project, id) => DeletesRule(t, t', actor, owner, project, id)
  }

  /** `ts` are the tables before, between and after the requests. */
  ghost predicate Session(ts: seq<Table>, reqs: seq<Request>) {
    |ts| == |reqs| + 1 && forall k | 0 <= k < |reqs| :: Serves(ts[k], reqs[k], ts[k + 1])
  }

  lemma StoredRuleIsGood(actor: Actor, mode: RuleMode, raws: seq<string>, cidrs: seq<string>, prefix: string)
    requires MayStore(actor, mode, raws, cidrs) && IsPrefix(prefix)
    ensures GoodRule(PathRule(prefix, mode, cidrs))
  {
    hide NormalForms, GoodExternal, IsPrefix, HasWorld;
    if cidrs != [] { NormalFormsAreGood(raws, cidrs); } else { NoneIsGood(); }
  }

  lemma NoneIsGood()
    ensures GoodExternal([])
  {
  }

  lemma ServedTableIsValid(t: Table, req: Request, t': Table)
    requires ValidTable(t) && Serves(t, req, t')
    ensures ValidTable(t')
  {
    if t' != t && !req.Delete? {
      var mode := ModeOf(Trim(req.body.mode)).value;
      var raws := if req.body.external.Some? then req.body.external.value
                  else if req.Update? then req.read else [];
      var cidrs :| MayStore(req.actor, mode, raws, cidrs)
                   && t' == t[req.id := Row(req.project, PathRule(Trim(req.body.prefix), mode, cidrs))];
      StoredRuleIsGood(req.actor, mode, raws, cidrs, Trim(req.body.prefix));
      hide GoodRule, MayStore, IsPrefix, Trim, ModeOf, CanManage;
      assert UniquePrefixes(t');
    }
  }

  lemma {:induction false} SessionStaysValid(ts: seq<Table>, reqs: seq<Request>)
    requires Session(ts, reqs) && ts[0] == map[]
    ensures forall k | 0 <= k < |ts| :: ValidTable(ts[k])
    decreases |reqs|
  {
    hide ValidTable, Serves;
    if reqs == [] {
      assert ValidTable(map[]) by { EmptyTableIsValid(); }
    } else {
      var n := |reqs| - 1;
      assert Session(ts[..n + 1], reqs[..n]);
      SessionStaysValid(ts[..n + 1], reqs[..n]);
      assert ts[..n + 1][n] == ts[n];
      ServedTableIsValid(ts[n], reqs[n], ts[n + 1]);
      forall k | 0 <= k < |ts| ensures ValidTable(ts[k]) {
        if k <= n { assert ts[..n + 1][k] == ts[k]; }
      }
    }
  }

  lemma EmptyTableIsValid()
    ensures ValidTable(map[])
  {
  }

  /**
   Whoever is not an admin can neither add nor alter external sources, however stale the read: a rule that carries
   some afterwards is as it was before.
   */
  lemma OnlyAdminsAdmitSources(t: Table, req: Request, t': Table, id: RuleId)
    requires Serves(t, req, t')
    requires !(req.actor.UserActor? && req.actor.isAdmin) && !(req.actor.TokenActor? && req.actor.adminScope)
    requires id in t' && t'[id].rule.external != []
    ensures id in t && t'[id] == t[id]
  {
    hide NormalForms, Readable, IsPrefix, HasWorld;
  }

  /** With an up-to-date read they cannot take sources off a rule either, short of deleting it. */
  lemma SourcesSurviveOwners(t: Table, req: Request, t': Table, id: RuleId)
    requires Serves(t, req, t') && !IsAdmin(req.actor) && id in t && t[id].rule.external != []
    requires req.Update? ==> req.read == Existing(t, req.project, req.id)
    ensures (id in t' && t'[id] == t[id]) || (req.Delete? && req.id == id && id !in t')
  {
    hide MayStore, IsPrefix;
  }

  lemma NothingToStore(actor: Actor, mode: RuleMode)
    ensures MayStore(actor, mode, [], [])
  {
  }

  /**
   The read decides: someone who is not an admin gets an update without sources through exactly when the read found
   none, even if the rule has some by now; they are then gone.
   */
  lemma StaleReadWipesSources(t: Table, actor: Actor, owner: nat, project: ProjectId, id: RuleId, body: Input,
      read: seq<string>)
    requires CanManage(actor, owner) && !IsAdmin(actor) && id in t && t[id].project == project
    requires body.external.None? && InputFaultOf(body.prefix, body.mode).None?
    requires !Taken(t, project, Trim(body.prefix), id)
    ensures read == [] <==> exists t': Table :: UpdatesRule(t, t', actor, owner, project, id, body, read)
    ensures forall t': Table | UpdatesRule(t, t', actor, owner, project, id, body, read) :: t'[id].rule.external == []
  {
    var mode := ModeOf(Trim(body.mode)).value;
    var t1 := t[id := Row(project, PathRule(Trim(body.prefix), mode, []))];
    NothingToStore(actor, mode);
    hide Trim, IsPrefix, NormalForms, Readable, HasWorld, Taken, ModeOf, CanManage;
    if read == [] {
      assert UpdatesRule(t, t1, actor, owner, project, id, body, read);
    }
  }

  /** Nobody who cannot manage a project changes its rules, and no request touches another project's. */
  lemma RulesStayInTheirProject(t: Table, req: Request, t': Table, id: RuleId)
    requires Serves(t, req, t') && id in t
    ensures t[id].project != req.project || !CanManage(req.actor, req.owner) ==> id in t' && t'[id] == t[id]
    ensures req.actor.Nobody? || (req.actor.TokenActor? && req.actor.projectScoped)
            || (req.actor.UserActor? && !req.actor.isAdmin && req.actor.id != req.owner)
            ==> id in t' && t'[id] == t[id]
  {
    hide MayStore, IsPrefix;
  }
}
