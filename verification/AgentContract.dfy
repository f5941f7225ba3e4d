/**
  What an agent run is held to: relative paths and their normal form, scopes,
  work packets and events.

  A path is the sequence of its components.
 */
module AgentContract {
  import opened Wrappers
  import opened Utf8

  const MAX_GOAL_BYTES: nat := 4 * 1024
  const MAX_SUMMARY_BYTES: nat := 512
  const MAX_PATH_BYTES: nat := 4 * 1024
  const MAX_PATH_SCOPES: nat := 256
  const MAX_REQUIRED_CHECKS: nat := 32
  const MAX_CHECK_ARGV: nat := 64
  const MAX_ARGV_ELEMENT_BYTES: nat := 1024
  const MAX_ID_BYTES: nat := 128
  const MAX_GIT_OBJECT_BYTES: nat := 256
  const MAX_ARTIFACT_REF_BYTES: nat := 1024
  const MAX_LABEL_BYTES: nat := 256
  const MAX_STICKIES_PER_PACKET: nat := 8
  const MAX_STICKY_BRIEF_BYTES: nat := 4 * 1024

  datatype Component = CurDir | ParentDir | RootDir | Prefix | Normal(name: string)

  type Path = seq<Component>

  datatype ContractError =
    | EmptyField(field: string)
    | Oversized(field: string, limit: nat)
    | TooMany(field: string, limit: nat)
    | InvalidId(field: string)
    | InvalidPath(path: Path)
    | MissingPath
    | MissingRunState
    | MissingCheckResult
    | InvalidSequence
    | AuthorityNotGranted(name: string)

  datatype PathResult = Ok(path: Path) | Err(error: ContractError)

  // ---------------------------------------------------------------------------
  // Normal form
  // ---------------------------------------------------------------------------

  /** A path of names only. */
  predicate IsNormal(path: Path) {
    forall c <- path :: c.Normal? && c.name != ""
  }

  /** What is left of a path after its dots, unless it starts at a root or climbs above its start. */
  function Reduced(path: Path): (r: Option<Path>)
    ensures r.Some? ==> IsNormal(r.value)
  {
    if path == [] then Some([])
    else
      match Reduced(path[..|path| - 1])
      case None => None
      case Some(before) =>
        match path[|path| - 1]
        case CurDir => Some(before)
        case Normal(name) => if name == "" then None else Some(before + [Normal(name)])
        case ParentDir => if before == [] then None else Some(before[..|before| - 1])
        case _ => None
  }

  function Normalized(path: Path, allowEmpty: bool): PathResult {
    match Reduced(path)
    case None => Err(InvalidPath(path))
    case Some(normalized) => if !allowEmpty && normalized == [] then Err(InvalidPath(path)) else Ok(normalized)
  }

  method NormalizeRelativePath(path: Path, allowEmpty: bool) returns (r: PathResult)
    ensures r == Normalized(path, allowEmpty)
  {
    var normalized: Path := [];
    assert path[..0] == [];
    for i := 0 to |path|
      invariant Reduced(path[..i]) == Some(normalized)
    {
      assert path[..i + 1][..i] == path[..i];
      match path[i] {
        case CurDir =>
        case Normal(name) =>
          if name == "" {
            ReducedNoneStays(path, i + 1);
            return Err(InvalidPath(path));
          }
          normalized := normalized + [path[i]];
        case ParentDir =>
          if normalized == [] {
            ReducedNoneStays(path, i + 1);
            return Err(InvalidPath(path));
          }
          normalized := normalized[..|normalized| - 1];
        case _ =>
          ReducedNoneStays(path, i + 1);
          return Err(InvalidPath(path));
      }
    }
    assert path[..|path|] == path;
    r := if !allowEmpty && normalized == [] then Err(InvalidPath(path)) else Ok(normalized);
  }

  lemma {:induction false} ReducedNoneStays(path: Path, n: nat)
    requires n <= |path| && Reduced(path[..n]).None?
    ensures Reduced(path).None?
    decreases |path| - n
  {
    if n < |path| {
      assert path[..n + 1][..n] == path[..n];
      ReducedNoneStays(path, n + 1);
    } else {
      assert path[..n] == path;
    }
  }

  /** How many levels below its start a path ends. */
  function Depth(path: Path): int {
    if path == [] then 0
    else Depth(path[..|path| - 1]) + match path[|path| - 1]
                                     case Normal(_) => 1
                                     case ParentDir => -1
                                     case _ => 0
  }

  predicate IsRelative(c: Component) { c.CurDir? || c.ParentDir? || (c.Normal? && c.name != "") }

  predicate AllRelative(path: Path) { forall c <- path :: IsRelative(c) }

  /** No prefix of the path climbs above its start. */
  ghost predicate StaysBelow(path: Path) {
    forall n | 0 <= n <= |path| :: Depth(path[..n]) >= 0
  }

  lemma OneMoreDepth(path: Path)
    requires path != []
    ensures StaysBelow(path) <==> StaysBelow(path[..|path| - 1]) && Depth(path) >= 0
  {
    hide Depth;
    var before := path[..|path| - 1];
    forall n | 0 <= n <= |before| ensures Depth(before[..n]) == Depth(path[..n]) {
      assert before[..n] == path[..n];
    }
    assert path[..|path|] == path;
  }

  lemma OneMoreRelative(path: Path)
    requires path != []
    ensures AllRelative(path) <==> AllRelative(path[..|path| - 1]) && IsRelative(path[|path| - 1])
  {
    hide IsRelative;
    assert path == path[..|path| - 1] + [path[|path| - 1]];
  }

  /** A path is accepted exactly when it has no root and no prefix of it climbs above its start. */
  lemma {:induction false} AcceptedIff(path: Path)
    ensures Reduced(path).Some? <==> AllRelative(path) && StaysBelow(path)
    ensures Reduced(path).Some? ==> |Reduced(path).value| == Depth(path)
  {
    if path == [] {
      NothingStaysBelow();
    } else {
      hide StaysBelow, AllRelative;
      OneMoreDepth(path);
      OneMoreRelative(path);
      AcceptedIff(path[..|path| - 1]);
    }
  }

  lemma NothingStaysBelow()
    ensures StaysBelow([])
  {
  }

  /** Normal paths are the fixed points of normalization. */
  lemma {:induction false} NormalIsFixed(path: Path)
    requires IsNormal(path)
    ensures Reduced(path) == Some(path)
  {
    if path != [] {
      assert path[|path| - 1] in path;
      NormalIsFixed(path[..|path| - 1]);
      assert path == path[..|path| - 1] + [path[|path| - 1]];
    }
  }

  /** Normalizing a path piece by piece gives the same. */
  lemma {:induction false} ReducedInTwo(a: Path, b: Path)
    requires Reduced(a).Some?
    ensures Reduced(a + b) == Reduced(Reduced(a).value + b)
  {
    if b == [] {
      assert a + b == a && Reduced(a).value + b == Reduced(a).value;
      NormalIsFixed(Reduced(a).value);
    } else {
      var c := b[..|b| - 1];
      ReducedInTwo(a, c);
      assert (a + b)[..|a + b| - 1] == a + c;
      assert (Reduced(a).value + b)[..|Reduced(a).value + b| - 1] == Reduced(a).value + c;
    }
  }

  /** A name and the `..` right behind it cancel out, wherever they stand. */
  lemma NameCancels(a: Path, name: string, b: Path)
    requires Reduced(a).Some? && name != ""
    ensures Reduced(a + [Normal(name), ParentDir] + b) == Reduced(a + b)
  {
    var down, up := a + [Normal(name)], a + [Normal(name), ParentDir];
    assert down[..|down| - 1] == a && up[..|up| - 1] == down;
    ReducedInTwo(a, b);
    ReducedInTwo(up, b);
  }

  lemma DotCancels(a: Path, b: Path)
    requires Reduced(a).Some?
    ensures Reduced(a + [CurDir] + b) == Reduced(a + b)
  {
    var dotted := a + [CurDir];
    assert dotted[..|dotted| - 1] == a;
    ReducedInTwo(a, b);
    ReducedInTwo(dotted, b);
  }

  // ---------------------------------------------------------------------------
  // Scopes and packets
  // ---------------------------------------------------------------------------

  function NamesLength(path: Path): nat {
    if path == [] then 0
    else NamesLength(path[..|path| - 1]) + (if path[|path| - 1].Normal? then Length(path[|path| - 1].name) else 0)
  }

  /** The UTF-8 length of a normal path, separators included. */
  function PathLength(path: Path): nat {
    NamesLength(path) + if path == [] then 0 else |path| - 1
  }

  /** The names with a slash between each two. */
  function Joined(path: Path): string
    requires IsNormal(path)
  {
    if path == [] then ""
    else
      assert path[0] in path && forall c <- path[1..] :: c in path;
      path[0].name + (if |path| == 1 then "" else "/" + Joined(path[1..]))
  }

  lemma {:induction false} NamesFromFront(path: Path)
    requires path != []
    ensures NamesLength(path) == (if path[0].Normal? then Length(path[0].name) else 0) + NamesLength(path[1..])
    decreases |path|
  {
    hide Length;
    if |path| > 1 {
      var before := path[..|path| - 1];
      NamesFromFront(before);
      assert path[1..][..|path| - 2] == before[1..];
    }
  }

  lemma {:induction false} PathLengthIsJoined(path: Path)
    requires IsNormal(path)
    ensures PathLength(path) == Length(Joined(path))
    decreases |path|
  {
    if path != [] {
      assert path[0] in path && forall c <- path[1..] :: c in path;
      PathLengthIsJoined(path[1..]);
      hide Length, NamesLength;
      NamesFromFront(path);
      EmptyLengths();
      if |path| == 1 {
        assert path[0].name + "" == path[0].name;
      } else {
        SlashLength(path[0].name, Joined(path[1..]));
      }
    }
  }

  lemma EmptyLengths()
    ensures NamesLength([]) == 0 && Length("") == 0
  {
  }

  lemma SlashLength(a: string, b: string)
    ensures Length(a + ("/" + b)) == Length(a) + 1 + Length(b)
  {
    hide Length;
    LengthAppend(a, "/" + b);
    LengthAppend("/", b);
    OneSlash();
  }

  lemma LengthAppend(a: string, b: string)
    ensures Length(a + b) == Length(a) + Length(b)
  {
    EncodeAppend(a, b);
  }

  lemma OneSlash()
    ensures Length("/") == 1
  {
    EncodeAscii("/");
  }

  datatype PathScope = PathScope(relative: Path)
  {
    predicate Covers(candidate: Path) {
      relative == [] || candidate == relative || relative <= candidate
    }
  }

  type Scope = s: PathScope | IsNormal(s.relative) && PathLength(s.relative) <= MAX_PATH_BYTES witness PathScope([])

  datatype ScopeResult = Scoped(scope: Scope) | NoScope(error: ContractError)

  method NewScope(path: Path) returns (r: ScopeResult)
    ensures match r
            case Scoped(scope) => Normalized(path, true) == Ok(scope.relative)
            case NoScope(error) =>
              match Normalized(path, true)
              case Err(e) => error == e
              case Ok(relative) => PathLength(relative) > MAX_PATH_BYTES
                                    && error == Oversized("path_scope", MAX_PATH_BYTES)
  {
    var normalized := NormalizeRelativePath(path, true);
    if normalized.Err? {
      return NoScope(normalized.error);
    }
    if PathLength(normalized.path) > MAX_PATH_BYTES {
      return NoScope(Oversized("path_scope", MAX_PATH_BYTES));
    }
    r := Scoped(PathScope(normalized.path));
  }

  datatype Authority = Authority(edit: bool, command: bool, network: bool, commit: bool, push: bool)

  datatype WorkPacket = WorkPacket(
    id: string, workspaceId: nat, goal: string, baseCommit: Option<string>,
    writablePaths: seq<Scope>, protectedPaths: seq<Scope>, requiredChecks: seq<seq<string>>,
    authority: Authority, creator: string, stickyIds: seq<string>, stickyBrief: Option<string>)

  predicate Covered(scopes: seq<Scope>, path: Path) {
    exists i | 0 <= i < |scopes| :: scopes[i].Covers(path)
  }

  datatype Verdict = Allowed | Denied | Invalid(error: ContractError)

  function AllowsPath(packet: WorkPacket, path: Path): Verdict {
    match Normalized(path, false)
    case Err(error) => Invalid(error)
    case Ok(relative) =>
      if PathLength(relative) > MAX_PATH_BYTES then Invalid(Oversized("path", MAX_PATH_BYTES))
      else if Covered(packet.protectedPaths, relative) then Denied
      else if Covered(packet.writablePaths, relative) then Allowed
      else Denied
  }

  /** A stored path: normal, bounded, under a writable scope and under no protected one. */
  ghost predicate InScope(packet: WorkPacket, path: Path) {
    && path != [] && IsNormal(path) && PathLength(path) <= MAX_PATH_BYTES
    && Covered(packet.writablePaths, path) && !Covered(packet.protectedPaths, path)
  }

  lemma AllowedMeans(packet: WorkPacket, path: Path)
    ensures AllowsPath(packet, path) == Allowed <==> Reduced(path).Some? && InScope(packet, Reduced(path).value)
  {
  }

  /** A scope covers what lies at or under it, however the path there is spelled. */
  lemma CoversNested(scope: Scope, below: Path)
    ensures Reduced(scope.relative + below).Some? && (forall c <- below :: !c.ParentDir?)
            ==> scope.Covers(Reduced(scope.relative + below).value)
  {
    if forall c <- below :: !c.ParentDir? {
      NestedStays(scope.relative, below);
    }
  }

  /** And nothing else: a normal path under a scope is the scope and then names. */
  lemma CoversIff(scope: Scope, path: Path)
    requires IsNormal(path)
    ensures scope.Covers(path)
       <==> exists below :: IsNormal(below) && Reduced(scope.relative + below) == Some(path)
  {
    hide Reduced, PathLength;
    NormalIsFixed(path);
    if scope.Covers(path) {
      BelowScope(scope, path);
    }
    forall below | IsNormal(below) && Reduced(scope.relative + below) == Some(path) ensures scope.Covers(path) {
      NestedStays(scope.relative, below);
    }
  }

  lemma BelowScope(scope: Scope, path: Path)
    requires IsNormal(path) && scope.Covers(path)
    ensures |scope.relative| <= |path|
    ensures IsNormal(path[|scope.relative|..]) && scope.relative + path[|scope.relative|..] == path
  {
    hide PathLength;
    assert forall c <- path[|scope.relative|..] :: c in path;
  }

  lemma {:induction false} NestedStays(base: Path, below: Path)
    requires IsNormal(base) && forall c <- below :: !c.ParentDir?
    ensures Reduced(base + below).Some? ==> base <= Reduced(base + below).value
  {
    if below == [] {
      assert base + below == base;
      NormalIsFixed(base);
    } else {
      assert below[|below| - 1] in below;
      NestedStays(base, below[..|below| - 1]);
      assert (base + below)[..|base + below| - 1] == base + below[..|below| - 1];
    }
  }

  // ---------------------------------------------------------------------------
  // Validation
  // ---------------------------------------------------------------------------

  /** The characters that trimming removes. */
  predicate IsWhiteSpace(c: char) {
    '\t' <= c <= '\r' || c == ' ' || c == '\U{85}' || c == '\U{a0}' || c == '\U{1680}' || '\U{2000}' <= c <= '\U{200a}'
    || c == '\U{2028}' || c == '\U{2029}' || c == '\U{202f}' || c == '\U{205f}' || c == '\U{3000}'
  }

  predicate IsBlank(s: string) { forall c <- s :: IsWhiteSpace(c) }

  function TextFault(text: string, limit: nat, field: string): Option<ContractError> {
    if Length(text) > limit then Some(Oversized(field, limit)) else None
  }

  function OptionalFault(text: Option<string>, limit: nat, field: string): Option<ContractError> {
    match text
    case None => None
    case Some(t) => TextFault(t, limit, field)
  }

  predicate IsIdCharacter(c: char) {
    'a' <= c <= 'z' || 'A' <= c <= 'Z' || '0' <= c <= '9' || c == '-' || c == '_' || c == '.'
  }

  function IdFault(id: string, field: string): Option<ContractError> {
    if Length(id) > MAX_ID_BYTES then Some(Oversized(field, MAX_ID_BYTES))
    else if id == "" then Some(EmptyField(field))
    else if exists c <- id :: !IsIdCharacter(c) then Some(InvalidId(field))
    else None
  }

  function First(a: Option<ContractError>, b: Option<ContractError>): Option<ContractError> {
    if a.Some? then a else b
  }

  function When(condition: bool, error: ContractError): Option<ContractError> {
    if condition then Some(error) else None
  }

  function TextsFault(texts: seq<string>, limit: nat, field: string): Option<ContractError> {
    if texts == [] then None else First(TextFault(texts[0], limit, field), TextsFault(texts[1..], limit, field))
  }

  function ChecksFault(checks: seq<seq<string>>): Option<ContractError> {
    if checks == [] then None
    else
      First(When(checks[0] == [], EmptyField("required_checks.argv")),
      First(When(|checks[0]| > MAX_CHECK_ARGV, TooMany("required_checks.argv", MAX_CHECK_ARGV)),
      First(TextsFault(checks[0], MAX_ARGV_ELEMENT_BYTES, "required_checks.argv"),
            ChecksFault(checks[1..]))))
  }

  function IdsFault(ids: seq<string>, field: string): Option<ContractError> {
    if ids == [] then None else First(IdFault(ids[0], field), IdsFault(ids[1..], field))
  }

  /** The first thing wrong with a packet. */
  function PacketFault(p: WorkPacket): Option<ContractError> {
    First(IdFault(p.id, "packet_id"),
    First(TextFault(p.goal, MAX_GOAL_BYTES, "goal"),
    First(When(IsBlank(p.goal), EmptyField("goal")),
    First(OptionalFault(p.baseCommit, MAX_GIT_OBJECT_BYTES, "base_commit"),
    First(When(|p.writablePaths| > MAX_PATH_SCOPES, TooMany("writable_paths", MAX_PATH_SCOPES)),
    First(When(|p.protectedPaths| > MAX_PATH_SCOPES, TooMany("protected_paths", MAX_PATH_SCOPES)),
    First(When(p.writablePaths == [], EmptyField("writable_paths")),
    First(When(|p.requiredChecks| > MAX_REQUIRED_CHECKS, TooMany("required_checks", MAX_REQUIRED_CHECKS)),
    First(ChecksFault(p.requiredChecks),
    First(TextFault(p.creator, MAX_LABEL_BYTES, "creator"),
    First(When(IsBlank(p.creator), EmptyField("creator")),
    First(When(p.authority.push, AuthorityNotGranted("push")),
    First(When(|p.stickyIds| > MAX_STICKIES_PER_PACKET, TooMany("sticky_ids", MAX_STICKIES_PER_PACKET)),
    First(IdsFault(p.stickyIds, "sticky_id"),
          OptionalFault(p.stickyBrief, MAX_STICKY_BRIEF_BYTES, "sticky_brief")))))))))))))))
  }

  datatype EventKind = State | Plan | Approval | PathTouched | CheckResult | Artifact | ReviewReady | Notice

  datatype RunState = Brief | Working | NeedsYou | Review | Closed

  datatype Event = Event(
    workspaceId: nat, sessionId: string, generation: nat, sequence: nat, kind: EventKind, summary: string,
    path: Option<Path>, gitObject: Option<string>, artifactRef: Option<string>,
    checkOk: Option<bool>, runState: Option<RunState>)

  function PathFault(e: Event): Option<ContractError> {
    match e.path
    case None => When(e.kind.PathTouched?, MissingPath)
    case Some(path) =>
      match Normalized(path, false)
      case Err(error) => Some(error)
      case Ok(relative) => When(PathLength(relative) > MAX_PATH_BYTES, Oversized("path", MAX_PATH_BYTES))
  }

  /** The first thing wrong with an event's structure. */
  function EventFault(e: Event): Option<ContractError> {
    First(IdFault(e.sessionId, "session_id"),
    First(When(e.sequence == 0, InvalidSequence),
    First(TextFault(e.summary, MAX_SUMMARY_BYTES, "summary"),
    First(When(IsBlank(e.summary), EmptyField("summary")),
    First(PathFault(e),
    First(OptionalFault(e.gitObject, MAX_GIT_OBJECT_BYTES, "git_object"),
    First(OptionalFault(e.artifactRef, MAX_ARTIFACT_REF_BYTES, "artifact_ref"),
    First(When(e.kind.State? && e.runState.None?, MissingRunState),
          When(e.kind.CheckResult? && e.checkOk.None?, MissingCheckResult)))))))))
  }

  // ---------------------------------------------------------------------------
  // What is accepted
  // ---------------------------------------------------------------------------

  ghost predicate GoodId(id: string) {
    0 < |id| && Length(id) <= MAX_ID_BYTES && forall c <- id :: IsIdCharacter(c)
  }

  ghost predicate GoodText(text: string, limit: nat) {
    Length(text) <= limit && exists c <- text :: !IsWhiteSpace(c)
  }

  ghost predicate GoodCheck(argv: seq<string>) {
    0 < |argv| <= MAX_CHECK_ARGV && forall a <- argv :: Length(a) <= MAX_ARGV_ELEMENT_BYTES
  }

  ghost predicate GoodOption(text: Option<string>, limit: nat) {
    text.Some? ==> Length(text.value) <= limit
  }

  lemma {:induction false} TextsFaultIff(texts: seq<string>, limit: nat, field: string)
    ensures TextsFault(texts, limit, field).None? <==> forall t <- texts :: Length(t) <= limit
  {
    hide Length;
    if texts != [] {
      TextsFaultIff(texts[1..], limit, field);
      assert texts == [texts[0]] + texts[1..];
    }
  }

  lemma {:induction false} ChecksFaultIff(checks: seq<seq<string>>)
    ensures ChecksFault(checks).None? <==> forall argv <- checks :: GoodCheck(argv)
  {
    hide GoodCheck;
    if checks != [] {
      FirstCheck(checks);
      hide ChecksFault;
      ChecksFaultIff(checks[1..]);
      assert checks == [checks[0]] + checks[1..];
    } else {
      assert ChecksFault([]).None?;
    }
  }

  lemma FirstCheck(checks: seq<seq<string>>)
    requires checks != []
    ensures ChecksFault(checks).None? <==> GoodCheck(checks[0]) && ChecksFault(checks[1..]).None?
  {
    hide Length, TextsFault;
    TextsFaultIff(checks[0], MAX_ARGV_ELEMENT_BYTES, "required_checks.argv");
  }

  lemma {:induction false} IdsFaultIff(ids: seq<string>, field: string)
    ensures IdsFault(ids, field).None? <==> forall id <- ids :: GoodId(id)
  {
    hide GoodId, IdFault;
    if ids != [] {
      IdFaultIff(ids[0], field);
      IdsFaultIff(ids[1..], field);
      assert ids == [ids[0]] + ids[1..];
    }
  }

  lemma IdFaultIff(id: string, field: string)
    ensures IdFault(id, field).None? <==> GoodId(id)
  {
    hide Length;
  }

  /** A packet is accepted exactly when its texts, lists and ids are within bounds and it does not ask to push. */
  lemma PacketAcceptedIff(p: WorkPacket)
    ensures PacketFault(p).None?
       <==> && GoodId(p.id) && GoodText(p.goal, MAX_GOAL_BYTES) && GoodText(p.creator, MAX_LABEL_BYTES)
            && GoodOption(p.baseCommit, MAX_GIT_OBJECT_BYTES) && GoodOption(p.stickyBrief, MAX_STICKY_BRIEF_BYTES)
            && 0 < |p.writablePaths| <= MAX_PATH_SCOPES && |p.protectedPaths| <= MAX_PATH_SCOPES
            && |p.requiredChecks| <= MAX_REQUIRED_CHECKS && (forall argv <- p.requiredChecks :: GoodCheck(argv))
            && |p.stickyIds| <= MAX_STICKIES_PER_PACKET && (forall id <- p.stickyIds :: GoodId(id))
            && !p.authority.push
  {
    hide Length, ChecksFault, IdsFault, GoodCheck, IsWhiteSpace;
    ChecksFaultIff(p.requiredChecks);
    IdsFaultIff(p.stickyIds, "sticky_id");
  }

  /** An event is well formed exactly when its texts are within bounds and it carries what its kind needs. */
  lemma EventAcceptedIff(e: Event)
    ensures EventFault(e).None?
       <==> && GoodId(e.sessionId) && e.sequence > 0 && GoodText(e.summary, MAX_SUMMARY_BYTES)
            && GoodOption(e.gitObject, MAX_GIT_OBJECT_BYTES) && GoodOption(e.artifactRef, MAX_ARTIFACT_REF_BYTES)
            && (e.path.Some? ==> Reduced(e.path.value).Some? && Reduced(e.path.value).value != []
                                 && PathLength(Reduced(e.path.value).value) <= MAX_PATH_BYTES)
            && (e.kind.PathTouched? ==> e.path.Some?) && (e.kind.State? ==> e.runState.Some?)
            && (e.kind.CheckResult? ==> e.checkOk.Some?)
  {
    hide Length, Reduced, PathLength, IsWhiteSpace;
  }
}
