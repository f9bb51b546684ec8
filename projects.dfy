/**
 * Project-type sniffing of sibling repositories (`detectProjectType` in
 * bin/cli.js): a first-match priority rule over marker files, then over
 * keywords of `package.json`.
 */
module Projects {
  import opened Common
  import opened Strings

  datatype ProjectType =
    | PhpLaravel | JavaSpring | JavaGradle | Python | Go | Rust
    | VueQuasar | VueNuxt | ReactNext | Vue | React | NodeJs | Unknown
  {
    /** The label the tool prints and records. */
    function Label(): string {
      match this
      case PhpLaravel => "PHP/Laravel"
      case JavaSpring => "Java/Spring"
      case JavaGradle => "Java/Gradle"
      case Python => "Python"
      case Go => "Go"
      case Rust => "Rust"
      case VueQuasar => "Vue/Quasar"
      case VueNuxt => "Vue/Nuxt"
      case ReactNext => "React/Next"
      case Vue => "Vue"
      case React => "React"
      case NodeJs => "Node.js"
      case Unknown => "unknown"
    }
  }

  /** What the scan records of one sibling repository. */
  datatype RepoInfo = RepoInfo(name: string, kind: ProjectType, hasClaude: bool)

  /**
   * `detectProjectType(dir)`: `markers` is the set of file names present in the
   * directory, `packageJson` the text of `package.json` when it can be read.
   */
  function DetectProjectType(markers: set<string>, packageJson: Option<string>): ProjectType {
    if "composer.json" in markers then PhpLaravel
    else if "pom.xml" in markers then JavaSpring
    else if "build.gradle" in markers then JavaGradle
    else if "requirements.txt" in markers || "pyproject.toml" in markers then Python
    else if "go.mod" in markers then Go
    else if "Cargo.toml" in markers then Rust
    else if "package.json" in markers then
      if PackageHas(packageJson, "quasar") then VueQuasar
      else if PackageHas(packageJson, "nuxt") then VueNuxt
      else if PackageHas(packageJson, "next") then ReactNext
      else if PackageHas(packageJson, "\"vue\"") then Vue
      else if PackageHas(packageJson, "\"react\"") then React
      else NodeJs
    else Unknown
  }

  /** `package.json` could be read and its text contains `kw`. */
  predicate PackageHas(packageJson: Option<string>, kw: string) {
    packageJson.Some? && Contains(packageJson.value, kw)
  }

  /** The marker files in priority order, with the type each one signals. */
  const MarkerRules: seq<(string, ProjectType)> := [
    ("composer.json", PhpLaravel), ("pom.xml", JavaSpring), ("build.gradle", JavaGradle),
    ("requirements.txt", Python), ("pyproject.toml", Python), ("go.mod", Go), ("Cargo.toml", Rust)]

  /** The `package.json` keywords in priority order. */
  const KeywordRules: seq<(string, ProjectType)> := [
    ("quasar", VueQuasar), ("nuxt", VueNuxt), ("next", ReactNext),
    ("\"vue\"", Vue), ("\"react\"", React)]

  /** The type of the first rule whose marker is present. */
  function FirstMarker(rules: seq<(string, ProjectType)>, markers: set<string>): (r: Option<ProjectType>)
    ensures r.Some? <==> exists i :: 0 <= i < |rules| && rules[i].0 in markers
    ensures r.Some? ==> exists i :: 0 <= i < |rules| && rules[i].0 in markers && r.value == rules[i].1 &&
                                  forall j :: 0 <= j < i ==> rules[j].0 !in markers
  {
    if rules == [] then None
    else if rules[0].0 in markers then Some(rules[0].1)
    else
      var r := FirstMarker(rules[1..], markers);
      assert forall i :: 0 < i < |rules| ==> rules[i] == rules[1..][i - 1];
      r
  }

  /** The type of the first keyword the text contains, or Node.js when none does. */
  function FirstKeyword(rules: seq<(string, ProjectType)>, text: Option<string>): ProjectType {
    if rules == [] then NodeJs
    else if text.Some? && Contains(text.value, rules[0].0) then rules[0].1
    else FirstKeyword(rules[1..], text)
  }

  /** The priority rule stated over the two tables. */
  function ByPriority(markers: set<string>, packageJson: Option<string>): ProjectType {
    match FirstMarker(MarkerRules, markers)
    case Some(t) => t
    case None => if "package.json" in markers then FirstKeyword(KeywordRules, packageJson) else Unknown
  }

  /** `detectProjectType` is exactly the first-match rule over the two priority tables. */
  lemma DetectIsFirstMatch(markers: set<string>, packageJson: Option<string>)
    ensures DetectProjectType(markers, packageJson) == ByPriority(markers, packageJson)
  {
    MarkerChain(markers);
    KeywordChain(packageJson);
  }

  lemma MarkerChain(markers: set<string>)
    ensures FirstMarker(MarkerRules, markers) ==
              if "composer.json" in markers then Some(PhpLaravel)
              else if "pom.xml" in markers then Some(JavaSpring)
              else if "build.gradle" in markers then Some(JavaGradle)
              else if "requirements.txt" in markers || "pyproject.toml" in markers then Some(Python)
              else if "go.mod" in markers then Some(Go)
              else if "Cargo.toml" in markers then Some(Rust)
              else None
  {
    var m := MarkerRules;
    var m1, m2, m3 := m[1..], m[2..], m[3..];
    var m4, m5, m6 := m[4..], m[5..], m[6..];
    assert m1 == m[1..] && m2 == m1[1..] && m3 == m2[1..] && m4 == m3[1..] && m5 == m4[1..] && m6 == m5[1..];
    assert m6[1..] == [];
    assert FirstMarker(m6, markers) == if "Cargo.toml" in markers then Some(Rust) else None;
    assert FirstMarker(m5, markers) == if "go.mod" in markers then Some(Go) else FirstMarker(m6, markers);
    assert FirstMarker(m4, markers) == if "pyproject.toml" in markers then Some(Python) else FirstMarker(m5, markers);
    assert FirstMarker(m3, markers) == if "requirements.txt" in markers then Some(Python) else FirstMarker(m4, markers);
    assert FirstMarker(m2, markers) == if "build.gradle" in markers then Some(JavaGradle) else FirstMarker(m3, markers);
    assert FirstMarker(m1, markers) == if "pom.xml" in markers then Some(JavaSpring) else FirstMarker(m2, markers);
  }

  lemma KeywordChain(t: Option<string>)
    ensures FirstKeyword(KeywordRules, t) ==
              if t.Some? && Contains(t.value, "quasar") then VueQuasar
              else if t.Some? && Contains(t.value, "nuxt") then VueNuxt
              else if t.Some? && Contains(t.value, "next") then ReactNext
              else if t.Some? && Contains(t.value, "\"vue\"") then Vue
              else if t.Some? && Contains(t.value, "\"react\"") then React
              else NodeJs
  {
    var k := KeywordRules;
    var k1, k2, k3, k4 := k[1..], k[2..], k[3..], k[4..];
    assert k1 == k[1..] && k2 == k1[1..] && k3 == k2[1..] && k4 == k3[1..];
    assert k4[1..] == [];
    assert FirstKeyword(k4, t) == if t.Some? && Contains(t.value, "\"react\"") then React else NodeJs;
    assert FirstKeyword(k3, t) == if t.Some? && Contains(t.value, "\"vue\"") then Vue else FirstKeyword(k4, t);
    assert FirstKeyword(k2, t) == if t.Some? && Contains(t.value, "next") then ReactNext else FirstKeyword(k3, t);
    assert FirstKeyword(k1, t) == if t.Some? && Contains(t.value, "nuxt") then VueNuxt else FirstKeyword(k2, t);
  }

  /** A repository is of unknown type exactly when it carries none of the markers. */
  lemma DetectUnknown(markers: set<string>, packageJson: Option<string>)
    ensures DetectProjectType(markers, packageJson) == Unknown <==>
              "package.json" !in markers && forall i :: 0 <= i < |MarkerRules| ==> MarkerRules[i].0 !in markers
  {
    DetectIsFirstMatch(markers, packageJson);
    if FirstMarker(MarkerRules, markers).None? && "package.json" in markers {
      KeywordNeverUnknown(KeywordRules, packageJson);
    }
  }

  lemma {:induction false} KeywordNeverUnknown(rules: seq<(string, ProjectType)>, text: Option<string>)
    requires forall i :: 0 <= i < |rules| ==> rules[i].1 != Unknown
    ensures FirstKeyword(rules, text) != Unknown
    decreases |rules|
  {
    if rules != [] && !(text.Some? && Contains(text.value, rules[0].0)) {
      KeywordNeverUnknown(rules[1..], text);
    }
  }

  /** An unreadable `package.json` still makes a Node.js project, unless a stronger marker wins. */
  lemma UnreadablePackageIsNode(markers: set<string>)
    requires "package.json" in markers
    requires forall i :: 0 <= i < |MarkerRules| ==> MarkerRules[i].0 !in markers
    ensures DetectProjectType(markers, None) == NodeJs
  {
    assert forall i :: 0 <= i < |MarkerRules| ==> MarkerRules[i].0 !in markers;
    assert MarkerRules[0].0 == "composer.json" && MarkerRules[1].0 == "pom.xml";
    assert MarkerRules[2].0 == "build.gradle" && MarkerRules[3].0 == "requirements.txt";
    assert MarkerRules[4].0 == "pyproject.toml" && MarkerRules[5].0 == "go.mod" && MarkerRules[6].0 == "Cargo.toml";
  }
}
