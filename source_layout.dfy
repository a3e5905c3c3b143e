/**
 * The agent source this dashboard reads and where its data lives under the
 * base directory (src/platform/source.ts).
 */
module SourceLayout {
  import opened Common
  import Text
  import opened Paths

  /** The one supported source. */
  datatype SourceProvider = ClaudeCode

  const DEFAULT_SOURCE: string := "claude-code"

  /** `parseSource`: trim and lower-case the input (default `claude-code`), then accept the two spellings. */
  function ParseSource(input: Option<string>): Option<SourceProvider> {
    var normalized := Text.ToLower(Text.Trim(input.GetOr(DEFAULT_SOURCE)));
    if normalized == "claude-code" || normalized == "claude" then Some(ClaudeCode) else None
  }

  /** With no input the default source is chosen. */
  lemma ParseSourceDefault()
    ensures ParseSource(None) == Some(ClaudeCode)
  {
    var d := DEFAULT_SOURCE;
    assert Text.ToLower(Text.Trim(d)) == d by {
      assert |d| == 11 && !Text.IsJsSpace(d[0]) && !Text.IsJsSpace(d[10]);
      assert forall i :: 0 <= i < |d| ==> !('A' <= d[i] <= 'Z');
      NormalizedWord(d);
    }
  }

  /** A word without space at either end or upper-case letters is its own normal form. */
  lemma NormalizedWord(w: string)
    requires w != [] && !Text.IsJsSpace(w[0]) && !Text.IsJsSpace(w[|w| - 1])
    requires forall i :: 0 <= i < |w| ==> !('A' <= w[i] <= 'Z')
    ensures Text.ToLower(Text.Trim(w)) == w
  {
    assert "" + w + "" == w;
    TrimPadded("", w, "");
    Text.ToLowerUnchanged(w);
  }

  /** An empty string is not nullish, so it gets no default and names no source. */
  lemma EmptySourceRejected()
    ensures ParseSource(Some("")) == None
  {
    assert Text.Trim("") == "";
  }

  /** Surrounding white space and upper case do not matter. */
  lemma {:induction false} ParseSourceIgnoresCaseAndSpace(pad: string, word: string, pad2: string)
    requires forall i :: 0 <= i < |pad| ==> Text.IsJsSpace(pad[i])
    requires forall i :: 0 <= i < |pad2| ==> Text.IsJsSpace(pad2[i])
    requires Text.ToLower(word) == "claude"
    ensures ParseSource(Some(pad + word + pad2)) == Some(ClaudeCode)
  {
    var s := pad + word + pad2;
    assert word != [] && !Text.IsJsSpace(word[0]) && !Text.IsJsSpace(word[|word| - 1]) by {
      assert |word| == 6;
      assert Text.ToLowerChar(word[0]) == 'c' && Text.ToLowerChar(word[5]) == 'e';
    }
    TrimPadded(pad, word, pad2);
  }

  lemma {:induction false} TrimPadded(pad: string, word: string, pad2: string)
    requires forall i :: 0 <= i < |pad| ==> Text.IsJsSpace(pad[i])
    requires forall i :: 0 <= i < |pad2| ==> Text.IsJsSpace(pad2[i])
    requires word != [] && !Text.IsJsSpace(word[0]) && !Text.IsJsSpace(word[|word| - 1])
    ensures Text.Trim(pad + word + pad2) == word
  {
    var s := pad + word + pad2;
    StripLeading(pad, word + pad2);
    assert s == pad + (word + pad2);
    StripTrailing(word, pad2);
  }

  lemma {:induction false} StripLeading(pad: string, rest: string)
    requires forall i :: 0 <= i < |pad| ==> Text.IsJsSpace(pad[i])
    requires rest != [] && !Text.IsJsSpace(rest[0])
    ensures Text.TrimStart(pad + rest) == rest
  {
    if pad != [] {
      assert (pad + rest)[1..] == pad[1..] + rest;
      StripLeading(pad[1..], rest);
    }
  }

  lemma {:induction false} StripTrailing(word: string, pad2: string)
    requires forall i :: 0 <= i < |pad2| ==> Text.IsJsSpace(pad2[i])
    requires word != [] && !Text.IsJsSpace(word[|word| - 1])
    ensures Text.TrimEnd(word + pad2) == word
  {
    if pad2 != [] {
      assert (word + pad2)[..|word + pad2| - 1] == word + pad2[..|pad2| - 1];
      StripTrailing(word, pad2[..|pad2| - 1]);
    }
  }

  datatype Layout = Layout(
    tasksDir: string,
    todosDir: string,
    projectsDir: string,
    usageDataDir: string,
    plansDir: string,
    statsCachePath: string,
    historyPath: string)

  function GetSourceLayout(source: SourceProvider, baseDir: string): Layout {
    match source
    case ClaudeCode =>
      Layout(
        PathJoin(baseDir, "tasks"),
        PathJoin(baseDir, "todos"),
        PathJoin(baseDir, "projects"),
        PathJoin(baseDir, "usage-data"),
        PathJoin(baseDir, "plans"),
        PathJoin(baseDir, "stats-cache.json"),
        PathJoin(baseDir, "history.jsonl"))
  }

  /** The entry names of the layout, in field order. */
  const LAYOUT_NAMES: seq<string> :=
    ["tasks", "todos", "projects", "usage-data", "plans", "stats-cache.json", "history.jsonl"]

  function LayoutPaths(l: Layout): seq<string> {
    [l.tasksDir, l.todosDir, l.projectsDir, l.usageDataDir, l.plansDir, l.statsCachePath, l.historyPath]
  }

  lemma NamesDistinct()
    ensures NoDuplicates(LAYOUT_NAMES)
  {
    var n := LAYOUT_NAMES;
    assert n[0][1] == 'a' && n[1][1] == 'o' && n[2][1] == 'r' && n[3][0] == 'u';
    assert n[4][1] == 'l' && n[5][1] == 't' && n[6][0] == 'h';
    assert n[0][0] == 't' && n[1][0] == 't' && n[2][0] == 'p' && n[4][0] == 'p' && n[5][0] == 's';
  }

  /** The seven locations are distinct entries directly under the base directory. */
  lemma LayoutDistinct(baseDir: string)
    ensures forall k :: 0 <= k < 7 ==> LayoutPaths(GetSourceLayout(ClaudeCode, baseDir))[k] == PathJoin(baseDir, LAYOUT_NAMES[k])
    ensures NoDuplicates(LayoutPaths(GetSourceLayout(ClaudeCode, baseDir)))
  {
    var all := LayoutPaths(GetSourceLayout(ClaudeCode, baseDir));
    assert forall k :: 0 <= k < 7 ==> all[k] == PathJoin(baseDir, LAYOUT_NAMES[k]);
    NamesDistinct();
    forall i, j | 0 <= i < j < 7
      ensures all[i] != all[j]
    {
      if all[i] == all[j] {
        PathJoinInjective(baseDir, LAYOUT_NAMES[i], LAYOUT_NAMES[j]);
      }
    }
  }

  /** `hasLiveSourceData`: the tasks or the todos directory exists. */
  function HasLiveSourceData(source: SourceProvider, baseDir: string, onDisk: string -> bool): (r: bool)
    ensures r <==> onDisk(PathJoin(baseDir, "tasks")) || onDisk(PathJoin(baseDir, "todos"))
  {
    var layout := GetSourceLayout(source, baseDir);
    onDisk(layout.tasksDir) || onDisk(layout.todosDir)
  }
}
