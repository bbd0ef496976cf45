/** `finalizePom` of `project/utils/MavenUtils.java` as a function from the
    serialized POM text to the text written back.

  The three steps are:
  1. every deferred-property marker becomes `${`;
  2. for a module POM that mentions `project.version`, each line is rewritten
     by looking at the line before it (already rewritten);
  3. for a module POM that mentions `docker-prune`, the executable of the
     docker-prune script is relocated to a property.

  `PluginUtils.isIoQuarkusMavenPlugin` is not part of this model; it is the
  parameter `isIoPlugin`, applied to an artifactId and a groupId.
*/
module PomFinalizer {
  import opened Wrappers
  import opened Text
  import opened Pom
  import opened MavenUtils
  import ParentProject

  const PLATFORM_GROUP_ID_REF := "${" + QUARKUS_PLATFORM_GROUP_ID + "}"
  const IO_QUARKUS := "io.quarkus"
  const DOCKER_PRUNE := "docker-prune"
  const DOCKER_PRUNE_SCRIPT_END := ".github/" + "docker-prune.sh" + "</executable>"
  /** The replacement line: 36 spaces of indentation, then the element. */
  const DOCKER_PRUNE_INDENT := "          " + "          " + "          " + "      "
  const DOCKER_PRUNE_LOCATION_ELEMENT := "<executable>" + "${docker-prune.location}" + "</executable>"
  const DOCKER_PRUNE_LOCATION_LINE := DOCKER_PRUNE_INDENT + DOCKER_PRUNE_LOCATION_ELEMENT

  /** What the regular-expression `.` matches: any character but a line terminator. */
  predicate IsRegexDot(c: char) {
    c != '\n' && c != '\r' && c != '\U{85}' && c != '\U{2028}' && c != '\U{2029}'
  }

  /** The text starts with a match of the regular expression `project.version`,
      whose dot matches any character. */
  predicate StartsWithProjectVersion(s: string) {
    |s| >= 15 && s[..7] == "project" && IsRegexDot(s[7]) && s[8..15] == "version"
  }

  predicate HasProjectVersion(s: string)
    decreases |s|
  {
    s != [] && (StartsWithProjectVersion(s) || HasProjectVersion(s[1..]))
  }

  /** Every literal `project.version` is also a match of the pattern. */
  lemma {:induction false} LiteralIsMatch(s: string)
    ensures Contains(s, THIS_PROJECT_VERSION) ==> HasProjectVersion(s)
    decreases |s|
  {
    if StartsWith(s, THIS_PROJECT_VERSION) {
      var head := s[..15];
      assert head == THIS_PROJECT_VERSION;
      assert s[..7] == head[..7] && s[7] == head[7] && s[8..15] == head[8..15];
      assert StartsWithProjectVersion(s);
    } else if Contains(s, THIS_PROJECT_VERSION) {
      LiteralIsMatch(s[1..]);
    }
  }

  /** `line.replaceAll("project.version", replacement)`: matches are replaced left
      to right without overlap; text without a match comes back unchanged. */
  function ReplaceProjectVersion(s: string, replacement: string): (r: string)
    ensures !HasProjectVersion(s) ==> r == s
    decreases |s|
  {
    if s == [] then []
    else if StartsWithProjectVersion(s) then replacement + ReplaceProjectVersion(s[15..], replacement)
    else
      var rest := ReplaceProjectVersion(s[1..], replacement);
      assert !HasProjectVersion(s) ==> [s[0]] + rest == s;
      [s[0]] + rest
  }

  /** A replacement in which no match of the pattern can start, and which no
      match can run into: it has no `p` and begins with "co". */
  predicate IsSafeReplacement(replacement: string) {
    |replacement| >= 2 && replacement[0] == 'c' && replacement[1] == 'o' && 'p' !in replacement
  }

  lemma VersionReplacementsAreSafe()
    ensures IsSafeReplacement(QUARKUS_COMMUNITY_VERSION) && IsSafeReplacement(QUARKUS_CORE_BOM_VERSION)
  {
  }

  /** Every match starts with `p`, so none starts inside text without one. */
  lemma {:induction false} NoMatchStartsInside(a: string, x: string)
    requires 'p' !in a
    ensures HasProjectVersion(a + x) ==> HasProjectVersion(x)
    decreases |a|
  {
    if a == [] {
      assert a + x == x;
    } else {
      var w := a + x;
      assert w[0] == a[0];
      assert |w| >= 7 ==> w[..7][0] == w[0];
      assert !StartsWithProjectVersion(w);
      assert w[1..] == a[1..] + x;
      NoMatchStartsInside(a[1..], x);
    }
  }

  /** No match starts at `m` when the text holds "co" there. */
  lemma NoMatchAtOffset(w: string, m: nat)
    requires m + 2 <= |w| && m < 15 && w[m] == 'c' && w[m + 1] == 'o'
    ensures !StartsWithProjectVersion(w)
  {
    if |w| >= 15 {
      if m < 5 || m == 6 {
        assert w[..7][m] != "project"[m];
      } else if m == 5 {
        assert w[..7][6] != "project"[6];
      } else if m == 7 {
        assert w[8..15][0] != "version"[0];
      } else {
        assert w[8..15][m - 8] != "version"[m - 8];
      }
    }
  }

  /** Whether a text starts with a match depends on its first 15 characters only. */
  lemma SameWindow(u: string, x: string, y: string)
    requires |u| >= 15
    ensures StartsWithProjectVersion(u + x) == StartsWithProjectVersion(u + y)
  {
    assert (u + x)[..7] == u[..7] == (u + y)[..7];
    assert (u + x)[7] == u[7] == (u + y)[7];
    assert (u + x)[8..15] == u[8..15] == (u + y)[8..15];
  }

  /** Whatever precedes the rewritten text, a match at its start was already
      a match before the rewrite: no match runs into a safe replacement. */
  lemma {:induction false} NoMatchRunsIntoReplacement(u: string, t: string, replacement: string)
    requires IsSafeReplacement(replacement)
    ensures StartsWithProjectVersion(u + ReplaceProjectVersion(t, replacement)) ==> StartsWithProjectVersion(u + t)
    decreases |t|
  {
    var x := ReplaceProjectVersion(t, replacement);
    if |u| >= 15 {
      SameWindow(u, x, t);
    } else if t == [] {
    } else if StartsWithProjectVersion(t) {
      assert x == replacement + ReplaceProjectVersion(t[15..], replacement);
      assert (u + x)[|u|] == replacement[0] && (u + x)[|u| + 1] == replacement[1];
      NoMatchAtOffset(u + x, |u|);
    } else {
      var rest := ReplaceProjectVersion(t[1..], replacement);
      assert x == [t[0]] + rest;
      NoMatchRunsIntoReplacement(u + [t[0]], t[1..], replacement);
      assert u + x == (u + [t[0]]) + rest;
      assert u + t == (u + [t[0]]) + t[1..];
    }
  }

  /** After the rewrite with either version property no match of the pattern
      is left on the line. */
  lemma {:induction false} ReplacedLineHasNoMatch(s: string, replacement: string)
    requires IsSafeReplacement(replacement)
    ensures !HasProjectVersion(ReplaceProjectVersion(s, replacement))
    decreases |s|
  {
    if s == [] {
    } else if StartsWithProjectVersion(s) {
      ReplacedLineHasNoMatch(s[15..], replacement);
      NoMatchStartsInside(replacement, ReplaceProjectVersion(s[15..], replacement));
    } else {
      var rest := ReplaceProjectVersion(s[1..], replacement);
      ReplacedLineHasNoMatch(s[1..], replacement);
      NoMatchRunsIntoReplacement([s[0]], s[1..], replacement);
      assert [s[0]] + s[1..] == s;
      assert ([s[0]] + rest)[1..] == rest;
    }
  }

  /** Only a line with a match of the pattern or the text `io.quarkus` can be changed by step 2. */
  predicate MayChange(line: string) {
    HasProjectVersion(line) || Contains(line, IO_QUARKUS)
  }

  predicate IsIoQuarkusMavenPlugin(dependency: Option<Dependency>, isIoPlugin: (string, Option<string>) -> bool) {
    dependency.Some? && isIoPlugin(dependency.value.artifactId, dependency.value.groupId)
  }

  predicate FollowsCommunityDependency(previousLine: string) {
    exists c :: c in COMMUNITY_DEPENDENCIES && Contains(previousLine, c)
  }

  /** Whether the dependency whose artifactId is on the previous line is
      managed by the generated parent. */
  function ManagesPrevious(parent: Model, previousLine: string): Result<bool> {
    var previousDependency :- ToDependency(Some(previousLine), None);
    ParentProject.IsManagedByTestParent(parent, previousDependency)
  }

  /** The line that replaces `line` when it is not a Quarkus Maven plugin
      coordinate: a dependency the generated parent manages keeps the module's
      own version; a community dependency takes the community Quarkus version
      and any other the core BOM version, and then no `project.version` is left. */
  function RewriteVersionLine(parent: Model, line: string, previousLine: string): (r: Result<string>)
    ensures r.Failure? <==> ManagesPrevious(parent, previousLine).Failure?
    ensures r.Success? && !HasProjectVersion(line) ==> r.value == line
    ensures ManagesPrevious(parent, previousLine) == Success(true) ==> r == Success(line)
    ensures ManagesPrevious(parent, previousLine) == Success(false) ==>
      r.Success? && !HasProjectVersion(r.value)
      && (FollowsCommunityDependency(previousLine) ==> r.value == ReplaceProjectVersion(line, QUARKUS_COMMUNITY_VERSION))
      && (!FollowsCommunityDependency(previousLine) ==> r.value == ReplaceProjectVersion(line, QUARKUS_CORE_BOM_VERSION))
  {
    var managed :- ManagesPrevious(parent, previousLine);
    VersionReplacementsAreSafe();
    if managed then Success(line)
    else if FollowsCommunityDependency(previousLine) then
      ReplacedLineHasNoMatch(line, QUARKUS_COMMUNITY_VERSION);
      Success(ReplaceProjectVersion(line, QUARKUS_COMMUNITY_VERSION))
    else
      ReplacedLineHasNoMatch(line, QUARKUS_CORE_BOM_VERSION);
      Success(ReplaceProjectVersion(line, QUARKUS_CORE_BOM_VERSION))
  }

  /** The line and the line before it name a Quarkus Maven plugin. */
  predicate IsPluginLine(isIoPlugin: (string, Option<string>) -> bool, line: string, previousLine: string) {
    var dependency := ToDependency(Some(line), Some(previousLine));
    dependency.Success? && IsIoQuarkusMavenPlugin(dependency.value, isIoPlugin)
  }

  /** One line of step 2 before the groupId fix-up: whether it is a Quarkus
      Maven plugin coordinate (kept as it is) and the line it becomes. A plugin
      coordinate on the first line fails, as there is no line before it. */
  function StageLine(parent: Model, isIoPlugin: (string, Option<string>) -> bool,
                     line: string, previousLine: string, first: bool): (r: Result<(bool, string)>)
    ensures ToDependency(Some(line), Some(previousLine)).Failure? ==> r.Failure?
    ensures IsPluginLine(isIoPlugin, line, previousLine) ==> (r.Success? <==> !first) && (r.Success? ==> r.value == (true, line))
    ensures ToDependency(Some(line), Some(previousLine)).Success? && !IsPluginLine(isIoPlugin, line, previousLine) ==>
      (r.Success? <==> RewriteVersionLine(parent, line, previousLine).Success?)
      && (r.Success? ==> r.value == (false, RewriteVersionLine(parent, line, previousLine).value))
  {
    var dependency :- ToDependency(Some(line), Some(previousLine));
    if IsIoQuarkusMavenPlugin(dependency, isIoPlugin) then
      if first then Failure(IndexOutOfBounds("Index -1 out of bounds"))
      else Success((true, line))
    else
      var newLine :- RewriteVersionLine(parent, line, previousLine);
      Success((false, newLine))
  }

  lemma GroupLineKept(line: string)
    ensures !Contains(line, IO_QUARKUS) ==> ReplaceAll(line, IO_QUARKUS, PLATFORM_GROUP_ID_REF) == line
  {
    if !Contains(line, IO_QUARKUS) {
      ReplaceAllAbsent(line, IO_QUARKUS, PLATFORM_GROUP_ID_REF);
    }
  }

  predicate RewrittenSoFar(input: seq<string>, done: seq<string>)
    requires |done| <= |input|
  {
    forall k :: 0 <= k < |done| ==> MayChange(input[k]) || done[k] == input[k]
  }

  lemma GroupStep(input: seq<string>, done: seq<string>, groupLine: string)
    requires 0 < |done| < |input| && RewrittenSoFar(input, done)
    requires !MayChange(input[|done| - 1]) ==> groupLine == done[|done| - 1]
    ensures RewrittenSoFar(input, done[..|done| - 1] + [groupLine, input[|done|]])
  {
    var next := done[..|done| - 1] + [groupLine, input[|done|]];
    forall k | 0 <= k < |next| ensures MayChange(input[k]) || next[k] == input[k] {
      if k < |done| - 1 {
        assert next[k] == done[k];
      }
    }
  }

  lemma VersionStep(input: seq<string>, done: seq<string>, newLine: string)
    requires |done| < |input| && RewrittenSoFar(input, done)
    requires !MayChange(input[|done|]) ==> newLine == input[|done|]
    ensures RewrittenSoFar(input, done + [newLine])
  {
    var next := done + [newLine];
    forall k | 0 <= k < |next| ensures MayChange(input[k]) || next[k] == input[k] {
      if k < |done| {
        assert next[k] == done[k];
      }
    }
  }

  /** Step 2 from line `|done|` on, in place as the source does it: `done`
      holds the lines already rewritten, and a Quarkus Maven plugin coordinate
      rewrites the groupId on the line before it. */
  function RewriteLines(parent: Model, isIoPlugin: (string, Option<string>) -> bool,
                        input: seq<string>, done: seq<string>): (r: Result<seq<string>>)
    requires |done| <= |input| && RewrittenSoFar(input, done)
    ensures r.Success? ==> |r.value| == |input|
    ensures r.Success? ==> forall k :: 0 <= k < |input| ==> MayChange(input[k]) || r.value[k] == input[k]
    decreases |input| - |done|
  {
    if |done| == |input| then Success(done)
    else
      var i := |done|;
      var previousLine := if i == 0 then "" else done[i - 1];
      var staged :- StageLine(parent, isIoPlugin, input[i], previousLine, i == 0);
      if staged.0 then
        var groupLine := ReplaceAll(previousLine, IO_QUARKUS, PLATFORM_GROUP_ID_REF);
        GroupLineKept(previousLine);
        GroupStep(input, done, groupLine);
        RewriteLines(parent, isIoPlugin, input, done[..i - 1] + [groupLine, input[i]])
      else
        VersionStep(input, done, staged.1);
        RewriteLines(parent, isIoPlugin, input, done + [staged.1])
  }

  /** Line `k` staged against the staged line before it. */
  function StageAt(parent: Model, isIoPlugin: (string, Option<string>) -> bool,
                   input: seq<string>, staged: seq<(bool, string)>, k: nat): Result<(bool, string)>
    requires k < |input| && k <= |staged|
  {
    StageLine(parent, isIoPlugin, input[k], if k == 0 then "" else staged[k - 1].1, k == 0)
  }

  /** Step 2 described in two passes, independently of the in-place loop: the
      lines are staged in order, each against the staged line before it ... */
  function Stages(parent: Model, isIoPlugin: (string, Option<string>) -> bool,
                  input: seq<string>): (r: Result<seq<(bool, string)>>)
    ensures r.Success? ==> |r.value| == |input|
    ensures r.Success? ==> forall k {:trigger StageAt(parent, isIoPlugin, input, r.value, k)} :: 0 <= k < |input| ==>
      StageAt(parent, isIoPlugin, input, r.value, k) == Success(r.value[k])
    decreases |input|
  {
    if input == [] then Success([])
    else
      var n := |input| - 1;
      var front :- Stages(parent, isIoPlugin, input[..n]);
      var staged :- StageLine(parent, isIoPlugin, input[n], if n == 0 then "" else front[n - 1].1, n == 0);
      StagesExtend(parent, isIoPlugin, input, front, staged);
      Success(front + [staged])
  }

  /** Appending the last line's stage to the stages of the other lines keeps
      every line staged against the one before it. */
  lemma StagesExtend(parent: Model, isIoPlugin: (string, Option<string>) -> bool,
                     input: seq<string>, front: seq<(bool, string)>, staged: (bool, string))
    requires input != [] && |front| == |input| - 1
    requires forall k {:trigger StageAt(parent, isIoPlugin, input[..|input| - 1], front, k)} :: 0 <= k < |input| - 1 ==>
      StageAt(parent, isIoPlugin, input[..|input| - 1], front, k) == Success(front[k])
    requires var n := |input| - 1;
      StageLine(parent, isIoPlugin, input[n], if n == 0 then "" else front[n - 1].1, n == 0) == Success(staged)
    ensures forall k {:trigger StageAt(parent, isIoPlugin, input, front + [staged], k)} :: 0 <= k < |input| ==>
      StageAt(parent, isIoPlugin, input, front + [staged], k) == Success((front + [staged])[k])
  {
    var n := |input| - 1;
    var r := front + [staged];
    forall k | 0 <= k < |input|
      ensures StageAt(parent, isIoPlugin, input, r, k) == Success(r[k])
    {
      StageAtExtend(parent, isIoPlugin, input, front, staged, k);
      if k < n {
        assert r[k] == front[k];
      }
    }
  }

  /** Line `k` of the input sees the same line and the same previous staged
      line in the extended stages as in the stages of all but the last line. */
  lemma StageAtExtend(parent: Model, isIoPlugin: (string, Option<string>) -> bool,
                      input: seq<string>, front: seq<(bool, string)>, staged: (bool, string), k: nat)
    requires input != [] && |front| == |input| - 1 && k < |input|
    ensures k < |input| - 1 ==>
      StageAt(parent, isIoPlugin, input, front + [staged], k) == StageAt(parent, isIoPlugin, input[..|input| - 1], front, k)
    ensures var n := |input| - 1;
      k == n ==> StageAt(parent, isIoPlugin, input, front + [staged], k)
                 == StageLine(parent, isIoPlugin, input[n], if n == 0 then "" else front[n - 1].1, n == 0)
  {
    var n := |input| - 1;
    var r := front + [staged];
    var previous := if k == 0 then "" else front[k - 1].1;
    assert (if k == 0 then "" else r[k - 1].1) == previous;
    assert StageAt(parent, isIoPlugin, input, r, k) == StageLine(parent, isIoPlugin, input[k], previous, k == 0);
    if k < n {
      assert input[..n][k] == input[k];
      assert StageAt(parent, isIoPlugin, input[..n], front, k) == StageLine(parent, isIoPlugin, input[k], previous, k == 0);
    }
  }

  /** ... and then every staged line followed by a Quarkus Maven plugin
      coordinate has `io.quarkus` replaced by the platform groupId property. */
  function Settled(stages: seq<(bool, string)>): seq<string> {
    seq(|stages|, k requires 0 <= k < |stages| =>
      if k + 1 < |stages| && stages[k + 1].0 then ReplaceAll(stages[k].1, IO_QUARKUS, PLATFORM_GROUP_ID_REF)
      else stages[k].1)
  }

  function SettledAll(stages: Result<seq<(bool, string)>>): Result<seq<string>> {
    var st :- stages;
    Success(Settled(st))
  }

  /** Staging fails as soon as staging all but the last line fails. */
  lemma StagesInitFailure(parent: Model, isIoPlugin: (string, Option<string>) -> bool, input: seq<string>)
    requires input != [] && Stages(parent, isIoPlugin, input[..|input| - 1]).Failure?
    ensures Stages(parent, isIoPlugin, input) == Stages(parent, isIoPlugin, input[..|input| - 1])
  {
  }

  /** A failure staging a prefix is the failure of staging the whole. */
  lemma {:induction false} StagesPrefixFailure(parent: Model, isIoPlugin: (string, Option<string>) -> bool,
                                               input: seq<string>, j: nat)
    requires j <= |input| && Stages(parent, isIoPlugin, input[..j]).Failure?
    ensures Stages(parent, isIoPlugin, input) == Stages(parent, isIoPlugin, input[..j])
    decreases |input|
  {
    if j == |input| {
      assert input[..j] == input;
    } else {
      var n := |input| - 1;
      assert input[..n][..j] == input[..j];
      StagesPrefixFailure(parent, isIoPlugin, input[..n], j);
      StagesInitFailure(parent, isIoPlugin, input);
    }
  }

  /** Staging one more line extends the staged prefix by that line. */
  lemma StagesSnoc(parent: Model, isIoPlugin: (string, Option<string>) -> bool,
                   input: seq<string>, st: seq<(bool, string)>)
    requires input != [] && Stages(parent, isIoPlugin, input[..|input| - 1]) == Success(st)
    ensures var n := |input| - 1;
      var staged := StageLine(parent, isIoPlugin, input[n], if n == 0 then "" else st[n - 1].1, n == 0);
      Stages(parent, isIoPlugin, input) == if staged.Failure? then Failure(staged.error) else Success(st + [staged.value])
  {
  }

  lemma SettledSnoc(st: seq<(bool, string)>, staged: (bool, string))
    ensures st != [] && staged.0 ==>
      Settled(st + [staged]) == Settled(st)[..|st| - 1] + [ReplaceAll(st[|st| - 1].1, IO_QUARKUS, PLATFORM_GROUP_ID_REF), staged.1]
    ensures !staged.0 ==> Settled(st + [staged]) == Settled(st) + [staged.1]
    ensures st != [] ==> Settled(st)[|st| - 1] == st[|st| - 1].1
  {
    var next := st + [staged];
    assert forall k :: 0 <= k < |st| ==> next[k] == st[k];
    if st != [] && staged.0 {
      var want := Settled(st)[..|st| - 1] + [ReplaceAll(st[|st| - 1].1, IO_QUARKUS, PLATFORM_GROUP_ID_REF), staged.1];
      assert forall k :: 0 <= k < |next| ==> Settled(next)[k] == want[k];
    }
    if !staged.0 {
      var want := Settled(st) + [staged.1];
      assert forall k :: 0 <= k < |next| ==> Settled(next)[k] == want[k];
    }
  }

  /** One step of the in-place loop. */
  lemma RewriteLinesStep(parent: Model, isIoPlugin: (string, Option<string>) -> bool,
                         input: seq<string>, done: seq<string>)
    requires |done| < |input| && RewrittenSoFar(input, done)
    ensures var i := |done|;
      var previousLine := if i == 0 then "" else done[i - 1];
      var staged := StageLine(parent, isIoPlugin, input[i], previousLine, i == 0);
      && (staged.Failure? ==> RewriteLines(parent, isIoPlugin, input, done) == Failure(staged.error))
      && (staged.Success? && staged.value.0 ==>
          i > 0
          && RewrittenSoFar(input, done[..i - 1] + [ReplaceAll(previousLine, IO_QUARKUS, PLATFORM_GROUP_ID_REF), input[i]])
          && RewriteLines(parent, isIoPlugin, input, done)
             == RewriteLines(parent, isIoPlugin, input, done[..i - 1] + [ReplaceAll(previousLine, IO_QUARKUS, PLATFORM_GROUP_ID_REF), input[i]]))
      && (staged.Success? && !staged.value.0 ==>
          RewrittenSoFar(input, done + [staged.value.1])
          && RewriteLines(parent, isIoPlugin, input, done) == RewriteLines(parent, isIoPlugin, input, done + [staged.value.1]))
  {
    var i := |done|;
    var previousLine := if i == 0 then "" else done[i - 1];
    var staged := StageLine(parent, isIoPlugin, input[i], previousLine, i == 0);
    if staged.Success? {
      if staged.value.0 {
        GroupLineKept(previousLine);
        GroupStep(input, done, ReplaceAll(previousLine, IO_QUARKUS, PLATFORM_GROUP_ID_REF));
      } else {
        VersionStep(input, done, staged.value.1);
      }
    }
  }

  /** The line staged next, against the last line written so far. */
  function NextStage(parent: Model, isIoPlugin: (string, Option<string>) -> bool,
                     input: seq<string>, done: seq<string>): Result<(bool, string)>
    requires |done| < |input|
  {
    StageLine(parent, isIoPlugin, input[|done|], if |done| == 0 then "" else done[|done| - 1], |done| == 0)
  }

  /** The staged prefix grows by the line staged next. */
  lemma StagesGrow(parent: Model, isIoPlugin: (string, Option<string>) -> bool,
                   input: seq<string>, done: seq<string>, st: seq<(bool, string)>)
    requires |done| < |input|
    requires Stages(parent, isIoPlugin, input[..|done|]) == Success(st) && done == Settled(st)
    ensures var staged := NextStage(parent, isIoPlugin, input, done);
      Stages(parent, isIoPlugin, input[..|done| + 1])
        == if staged.Failure? then Failure(staged.error) else Success(st + [staged.value])
  {
    var i := |done|;
    SettledSnoc(st, (false, ""));
    assert input[..i + 1][..i] == input[..i];
    StagesSnoc(parent, isIoPlugin, input[..i + 1], st);
    assert input[..i + 1][i] == input[i];
  }

  lemma AdvanceFailing(parent: Model, isIoPlugin: (string, Option<string>) -> bool,
                       input: seq<string>, done: seq<string>, st: seq<(bool, string)>)
    requires |done| < |input| && RewrittenSoFar(input, done)
    requires Stages(parent, isIoPlugin, input[..|done|]) == Success(st) && done == Settled(st)
    requires NextStage(parent, isIoPlugin, input, done).Failure?
    ensures RewriteLines(parent, isIoPlugin, input, done) == SettledAll(Stages(parent, isIoPlugin, input))
  {
    StagesGrow(parent, isIoPlugin, input, done, st);
    RewriteLinesStep(parent, isIoPlugin, input, done);
    StagesPrefixFailure(parent, isIoPlugin, input, |done| + 1);
  }

  lemma AdvancePlugin(parent: Model, isIoPlugin: (string, Option<string>) -> bool,
                      input: seq<string>, done: seq<string>, st: seq<(bool, string)>)
    returns (next: seq<string>, nextSt: seq<(bool, string)>)
    requires |done| < |input| && RewrittenSoFar(input, done)
    requires Stages(parent, isIoPlugin, input[..|done|]) == Success(st) && done == Settled(st)
    requires NextStage(parent, isIoPlugin, input, done).Success? && NextStage(parent, isIoPlugin, input, done).value.0
    ensures |next| == |done| + 1 && RewrittenSoFar(input, next)
    ensures Stages(parent, isIoPlugin, input[..|next|]) == Success(nextSt) && next == Settled(nextSt)
    ensures RewriteLines(parent, isIoPlugin, input, done) == RewriteLines(parent, isIoPlugin, input, next)
  {
    var i := |done|;
    var staged := NextStage(parent, isIoPlugin, input, done).value;
    StagesGrow(parent, isIoPlugin, input, done, st);
    RewriteLinesStep(parent, isIoPlugin, input, done);
    SettledSnoc(st, staged);
    nextSt := st + [staged];
    next := done[..i - 1] + [ReplaceAll(done[i - 1], IO_QUARKUS, PLATFORM_GROUP_ID_REF), input[i]];
  }

  lemma AdvanceVersion(parent: Model, isIoPlugin: (string, Option<string>) -> bool,
                       input: seq<string>, done: seq<string>, st: seq<(bool, string)>)
    returns (next: seq<string>, nextSt: seq<(bool, string)>)
    requires |done| < |input| && RewrittenSoFar(input, done)
    requires Stages(parent, isIoPlugin, input[..|done|]) == Success(st) && done == Settled(st)
    requires NextStage(parent, isIoPlugin, input, done).Success? && !NextStage(parent, isIoPlugin, input, done).value.0
    ensures |next| == |done| + 1 && RewrittenSoFar(input, next)
    ensures Stages(parent, isIoPlugin, input[..|next|]) == Success(nextSt) && next == Settled(nextSt)
    ensures RewriteLines(parent, isIoPlugin, input, done) == RewriteLines(parent, isIoPlugin, input, next)
  {
    var staged := NextStage(parent, isIoPlugin, input, done).value;
    StagesGrow(parent, isIoPlugin, input, done, st);
    RewriteLinesStep(parent, isIoPlugin, input, done);
    SettledSnoc(st, staged);
    nextSt := st + [staged];
    next := done + [staged.1];
  }

  /** The in-place loop computes the two-pass description. */
  lemma {:induction false} RewriteLinesIsStagedThenSettled(parent: Model, isIoPlugin: (string, Option<string>) -> bool,
                                                           input: seq<string>, done: seq<string>, st: seq<(bool, string)>)
    requires |done| <= |input| && RewrittenSoFar(input, done)
    requires Stages(parent, isIoPlugin, input[..|done|]) == Success(st) && done == Settled(st)
    ensures RewriteLines(parent, isIoPlugin, input, done) == SettledAll(Stages(parent, isIoPlugin, input))
    decreases |input| - |done|
  {
    if |done| == |input| {
      assert input[..|done|] == input;
    } else {
      var staged := NextStage(parent, isIoPlugin, input, done);
      if staged.Failure? {
        AdvanceFailing(parent, isIoPlugin, input, done, st);
      } else if staged.value.0 {
        var next, nextSt := AdvancePlugin(parent, isIoPlugin, input, done, st);
        RewriteLinesIsStagedThenSettled(parent, isIoPlugin, input, next, nextSt);
      } else {
        var next, nextSt := AdvanceVersion(parent, isIoPlugin, input, done, st);
        RewriteLinesIsStagedThenSettled(parent, isIoPlugin, input, next, nextSt);
      }
    }
  }

  /** Step 2 over the whole text: the lines are rewritten and joined with "\n".
      The result is the two-pass description, and only lines with a match of
      the pattern or `io.quarkus` differ from the input. */
  function RewriteProjectVersions(parent: Model, isIoPlugin: (string, Option<string>) -> bool,
                                  content: string): (r: Result<string>)
    ensures r.Failure? <==> Stages(parent, isIoPlugin, Lines(content)).Failure?
    ensures r.Success? ==> r.value == Join(Settled(Stages(parent, isIoPlugin, Lines(content)).value), "\n")
    ensures r.Success? ==> exists out: seq<string> ::
      |out| == |Lines(content)| && r.value == Join(out, "\n")
      && forall k :: 0 <= k < |out| ==> MayChange(Lines(content)[k]) || out[k] == Lines(content)[k]
  {
    assert Lines(content)[..0] == [];
    RewriteLinesIsStagedThenSettled(parent, isIoPlugin, Lines(content), [], []);
    var out :- RewriteLines(parent, isIoPlugin, Lines(content), []);
    Success(Join(out, "\n"))
  }

  predicate IsDockerPruneScriptLine(line: string) {
    EndsWith(Trim(line), DOCKER_PRUNE_SCRIPT_END)
  }

  lemma LocationLineIsNotScriptLine()
    ensures !IsDockerPruneScriptLine(DOCKER_PRUNE_LOCATION_LINE)
    ensures NoLineTerminator(DOCKER_PRUNE_LOCATION_LINE)
  {
    var e := DOCKER_PRUNE_LOCATION_ELEMENT;
    IndentIsBlank();
    LocationElementShape();
    TrimOfIndentedLine(DOCKER_PRUNE_INDENT, e);
    ScriptEndShape();
    LocationLineHasNoTerminator();
  }

  lemma IndentIsBlank()
    ensures |DOCKER_PRUNE_INDENT| == 36 && AllTrimSpace(DOCKER_PRUNE_INDENT) && NoLineTerminator(DOCKER_PRUNE_INDENT)
  {
    var ten := "          ";
    var six := "      ";
    assert AllTrimSpace(ten) && NoLineTerminator(ten);
    assert AllTrimSpace(six) && NoLineTerminator(six);
    NoLineTerminatorConcat(ten, ten);
    NoLineTerminatorConcat(ten + ten, ten);
    NoLineTerminatorConcat(ten + ten + ten, six);
  }

  /** The location element is not a suffix-match for the script: at the
      position of the script's `h` it holds a `}`. */
  lemma LocationElementShape()
    ensures var e := DOCKER_PRUNE_LOCATION_ELEMENT;
      |e| == 49 && e[0] == '<' && e[48] == '>' && e[35] == '}' && NoLineTerminator(e)
  {
    var open := "<executable>";
    var location := "${docker-prune.location}";
    var close := "</executable>";
    assert NoLineTerminator(open) && NoLineTerminator(location) && NoLineTerminator(close);
    NoLineTerminatorConcat(open, location);
    NoLineTerminatorConcat(open + location, close);
    assert (open + location + close)[35] == location[23];
  }

  lemma ScriptEndShape()
    ensures |DOCKER_PRUNE_SCRIPT_END| == 36 && DOCKER_PRUNE_SCRIPT_END[22] == 'h'
  {
    assert DOCKER_PRUNE_SCRIPT_END[22] == "docker-prune.sh"[14];
  }

  lemma LocationLineHasNoTerminator()
    ensures NoLineTerminator(DOCKER_PRUNE_LOCATION_LINE)
  {
    IndentIsBlank();
    LocationElementShape();
    NoLineTerminatorConcat(DOCKER_PRUNE_INDENT, DOCKER_PRUNE_LOCATION_ELEMENT);
  }

  /** Step 3 on the lines: script lines are replaced by the location line, the
      others kept; no script line is left. */
  function RelocateDockerPruneLines(lines: seq<string>): (r: seq<string>)
    ensures |r| == |lines|
    ensures forall k :: 0 <= k < |r| ==> !IsDockerPruneScriptLine(r[k])
    ensures forall k :: 0 <= k < |r| ==> IsDockerPruneScriptLine(lines[k]) || r[k] == lines[k]
  {
    LocationLineIsNotScriptLine();
    seq(|lines|, k requires 0 <= k < |lines| =>
      if IsDockerPruneScriptLine(lines[k]) then DOCKER_PRUNE_LOCATION_LINE else lines[k])
  }

  /** Relocating twice is relocating once. */
  lemma RelocateDockerPruneIsIdempotent(lines: seq<string>)
    ensures RelocateDockerPruneLines(RelocateDockerPruneLines(lines)) == RelocateDockerPruneLines(lines)
  {
  }

  lemma JoinedLinesPrefix(xs: seq<string>)
    ensures |JoinedLines(xs)| <= |xs|
    ensures forall k :: 0 <= k < |JoinedLines(xs)| ==> JoinedLines(xs)[k] == xs[k]
  {
  }

  function RelocateDockerPrune(content: string): (r: string)
    ensures forall k :: 0 <= k < |Lines(r)| ==> !IsDockerPruneScriptLine(Lines(r)[k])
  {
    var lines := RelocateDockerPruneLines(Lines(content));
    RelocatedLinesAreLines(Lines(content));
    LinesOfJoin(lines);
    JoinedLinesPrefix(lines);
    Join(lines, "\n")
  }

  lemma RelocatedLinesAreLines(lines: seq<string>)
    requires forall k :: 0 <= k < |lines| ==> NoLineTerminator(lines[k])
    ensures forall k :: 0 <= k < |lines| ==> NoLineTerminator(RelocateDockerPruneLines(lines)[k])
  {
    LocationLineIsNotScriptLine();
  }

  /** The finalized POM text. The parent POM only gets the marker rewrite; so
      does a module POM that mentions neither `project.version` nor `docker-prune`. */
  function FinalizePom(parent: Model, isIoPlugin: (string, Option<string>) -> bool,
                       content: string, parentModule: bool): (r: Result<string>)
    ensures parentModule ==> r == Success(ReplaceExtractedPropertyPrefix(content))
    ensures var marked := ReplaceExtractedPropertyPrefix(content);
      !Contains(marked, THIS_PROJECT_VERSION) && !Contains(marked, DOCKER_PRUNE) ==> r == Success(marked)
    ensures r.Failure? ==> !parentModule && Contains(ReplaceExtractedPropertyPrefix(content), THIS_PROJECT_VERSION)
    ensures r.Success? && !parentModule && Contains(r.value, DOCKER_PRUNE) ==>
      forall k :: 0 <= k < |Lines(r.value)| ==> !IsDockerPruneScriptLine(Lines(r.value)[k])
    ensures var marked := ReplaceExtractedPropertyPrefix(content);
      !parentModule && Contains(marked, THIS_PROJECT_VERSION) ==>
        var versioned := RewriteProjectVersions(parent, isIoPlugin, marked);
        (r.Failure? <==> versioned.Failure?)
        && (r.Success? && !Contains(versioned.value, DOCKER_PRUNE) ==> r.value == versioned.value)
        && (r.Success? && Contains(versioned.value, DOCKER_PRUNE) ==> r.value == RelocateDockerPrune(versioned.value))
    ensures var marked := ReplaceExtractedPropertyPrefix(content);
      !parentModule && !Contains(marked, THIS_PROJECT_VERSION) && Contains(marked, DOCKER_PRUNE) ==>
        r == Success(RelocateDockerPrune(marked))
  {
    var marked := ReplaceExtractedPropertyPrefix(content);
    var versioned :-
      if !parentModule && Contains(marked, THIS_PROJECT_VERSION) then RewriteProjectVersions(parent, isIoPlugin, marked)
      else Success(marked);
    if !parentModule && Contains(versioned, DOCKER_PRUNE) then
      var relocated := RelocateDockerPrune(versioned);
      Success(relocated)
    else Success(versioned)
  }
}
