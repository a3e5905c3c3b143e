/**
 * The summary the `/sessions/:id/context` route (src/server/routes/live.ts)
 * builds from the tail of a session transcript: the last user prompt, the
 * last assistant text, how often each tool was called, and the ten most
 * called tools. Each transcript line is parsed with the oracle `parse`
 * (`JSON.parse`, `None` when it throws); a line that throws is skipped, but
 * what an assistant line had already counted before the throw stays counted.
 */
module ContextSummary {
  import opened Common
  import opened JsValues
  import Sorting

  /** `slice(0, 300)` on prompts and summaries. */
  const PREVIEW_CHARS: nat := 300
  /** `slice(0, 10)` on the sorted tool entries. */
  const RECENT_TOOLS: nat := 10

  /**
   * `toolCounts` is the object the route fills; `toolOrder` is the order in
   * which its keys were first added, which is the order `Object.entries`
   * lists them in.
   */
  datatype Summary = Summary(
    lastUserPrompt: Option<string>,
    lastAssistantSummary: Option<string>,
    toolCounts: map<string, nat>,
    toolOrder: seq<string>)

  /** The key order lists each counted tool once, and every count is positive. */
  ghost predicate WellFormed(s: Summary) {
    && NoDuplicates(s.toolOrder)
    && (forall n :: n in s.toolOrder <==> n in s.toolCounts)
    && (forall n :: n in s.toolCounts ==> s.toolCounts[n] > 0)
  }

  const EMPTY: Summary := Summary(None, None, map[], [])

  /** `toolCounts[n] ?? 0`. */
  function CountOf(counts: map<string, nat>, n: string): nat {
    if n in counts then counts[n] else 0
  }

  /** `v.key` on a value known not to be `null` or `undefined`. */
  function Field(v: Value, key: string): Value {
    match Prop(v, key)
    case Some(x) => x
    case None => Undefined
  }

  /** `typeof v === 'string'`, as an option. */
  function Text(v: Value): Option<string> {
    if v.Str? then Some(v.s) else None
  }

  /**
   * The user branch: string content is the prompt; array content gives the
   * `text` of its first block whose `type` is `'text'` when that is a string.
   * `None` when the prompt stays as it was, including when `find` reads the
   * `type` of a `null` block and throws.
   */
  function UserPrompt(msg: Value): (p: Option<string>)
    ensures p.Some? ==> |p.value| <= PREVIEW_CHARS
  {
    var content := Field(msg, "content");
    if content.Str? then Some(Take(content.s, PREVIEW_CHARS))
    else if content.Arr? then FirstText(content.items)
    else None
  }

  /** `find(b => b.type === 'text')`, then its `text` when it is a string, cut to 300 characters. */
  function FirstText(blocks: seq<Value>): (p: Option<string>)
    ensures p.Some? ==> |p.value| <= PREVIEW_CHARS
  {
    if blocks == [] then None
    else if blocks[0].Undefined? || blocks[0].Null? then None
    else if Field(blocks[0], "type") == Str("text") then
      match Text(Field(blocks[0], "text"))
      case Some(t) => Some(Take(t, PREVIEW_CHARS))
      case None => None
    else FirstText(blocks[1..])
  }

  /** One more call of tool `n`: its count goes up by one, and a new name joins the key order. */
  function CountTool(s: Summary, n: string): (r: Summary)
    ensures WellFormed(s) ==> WellFormed(r)
    ensures r.toolCounts.Keys == s.toolCounts.Keys + {n}
    ensures CountOf(r.toolCounts, n) == CountOf(s.toolCounts, n) + 1
    ensures forall m :: m != n ==> CountOf(r.toolCounts, m) == CountOf(s.toolCounts, m)
    ensures r.lastUserPrompt == s.lastUserPrompt && r.lastAssistantSummary == s.lastAssistantSummary
  {
    var order := if n in s.toolCounts then s.toolOrder else s.toolOrder + [n];
    s.(toolCounts := s.toolCounts[n := CountOf(s.toolCounts, n) + 1], toolOrder := order)
  }

  /** The tool a block calls: its `name`, when its `type` is `'tool_use'` and the name is a string. */
  function ToolOf(block: Value): Option<string> {
    if Field(block, "type") == Str("tool_use") then Text(Field(block, "name")) else None
  }

  /** One assistant block that is not `null` or `undefined`: its text, then its tool call. */
  function BlockStep(s: Summary, block: Value): (r: Summary)
    ensures WellFormed(s) ==> WellFormed(r)
  {
    var s1 :=
      if Field(block, "type") == Str("text") && Text(Field(block, "text")).Some? then
        s.(lastAssistantSummary := Some(Take(Field(block, "text").s, PREVIEW_CHARS)))
      else s;
    match ToolOf(block)
    case Some(n) => CountTool(s1, n)
    case None => s1
  }

  /** A block whose property reads throw. */
  predicate Throws(block: Value) {
    block.Undefined? || block.Null?
  }

  /** The assistant loop over blocks; reading a `null` block throws and ends it. */
  function Blocks(s: Summary, blocks: seq<Value>): (r: Summary)
    ensures WellFormed(s) ==> WellFormed(r)
    decreases |blocks|
  {
    if blocks == [] || Throws(blocks[0]) then s else Blocks(BlockStep(s, blocks[0]), blocks[1..])
  }

  /**
   * One transcript line: parse it, then the user branch and the assistant
   * branch. `obj.message` throws on a `null` line, which is then skipped.
   */
  function LineStep(s: Summary, line: string, parse: string -> Option<Value>): (r: Summary)
    ensures WellFormed(s) ==> WellFormed(r)
  {
    match parse(line)
    case None => s
    case Some(obj) =>
      if Throws(obj) then s
      else
        var msg := Field(obj, "message");
        var role := Field(obj, "type");
        if role == Str("user") && Truthy(msg) then
          match UserPrompt(msg)
          case Some(p) => s.(lastUserPrompt := Some(p))
          case None => s
        else if role == Str("assistant") && Truthy(msg) && Field(msg, "content").Arr? then
          Blocks(s, Field(msg, "content").items)
        else s
  }

  /** The summary after the given lines, in order. */
  function SummaryOf(lines: seq<string>, parse: string -> Option<Value>): (r: Summary)
    ensures WellFormed(r)
  {
    if lines == [] then EMPTY else LineStep(SummaryOf(lines[..|lines| - 1], parse), lines[|lines| - 1], parse)
  }

  /**
   * The assistant `for` loop over one line's blocks, stopping at the first
   * block that throws (what was counted before it stays counted).
   */
  method AssistantBlocks(s0: Summary, blocks: seq<Value>) returns (s: Summary)
    ensures s == Blocks(s0, blocks)
  {
    s := s0;
    var i := 0;
    while i < |blocks|
      invariant i <= |blocks|
      invariant Blocks(s, blocks[i..]) == Blocks(s0, blocks)
    {
      var block := blocks[i];
      if Throws(block) {
        return;
      }
      if Field(block, "type") == Str("text") && Field(block, "text").Str? {
        s := s.(lastAssistantSummary := Some(Take(Field(block, "text").s, PREVIEW_CHARS)));
      }
      if Field(block, "type") == Str("tool_use") && Field(block, "name").Str? {
        s := CountTool(s, Field(block, "name").s);
      }
      assert blocks[i..][1..] == blocks[i + 1..];
      i := i + 1;
    }
  }

  /** The route's loop over the tail lines. */
  method Summarize(lines: seq<string>, parse: string -> Option<Value>) returns (s: Summary)
    ensures s == SummaryOf(lines, parse)
    ensures WellFormed(s)
  {
    s := EMPTY;
    for i := 0 to |lines|
      invariant s == SummaryOf(lines[..i], parse)
    {
      assert lines[..i + 1][..i] == lines[..i];
      var parsed := parse(lines[i]);
      if parsed.Some? && !Throws(parsed.value) {
        var obj := parsed.value;
        var msg := Field(obj, "message");
        var role := Field(obj, "type");
        if role == Str("user") && Truthy(msg) {
          var p := UserPrompt(msg);
          if p.Some? {
            s := s.(lastUserPrompt := p);
          }
        } else if role == Str("assistant") && Truthy(msg) && Field(msg, "content").Arr? {
          s := AssistantBlocks(s, Field(msg, "content").items);
        }
      }
    }
    assert lines[..|lines|] == lines;
  }

  /** The tools one assistant line calls, up to its first block that throws. */
  function BlockTools(blocks: seq<Value>): seq<string> {
    if blocks == [] || Throws(blocks[0]) then []
    else
      (match ToolOf(blocks[0]) case Some(n) => [n] case None => []) + BlockTools(blocks[1..])
  }

  /** The tools a transcript line calls. */
  function LineTools(line: string, parse: string -> Option<Value>): seq<string> {
    match parse(line)
    case None => []
    case Some(obj) =>
      if Throws(obj) then []
      else
        var msg := Field(obj, "message");
        if Field(obj, "type") == Str("assistant") && Truthy(msg) && Field(msg, "content").Arr? then
          BlockTools(Field(msg, "content").items)
        else []
  }

  /** Every tool call of the lines, in order. */
  function AllTools(lines: seq<string>, parse: string -> Option<Value>): seq<string> {
    if lines == [] then [] else AllTools(lines[..|lines| - 1], parse) + LineTools(lines[|lines| - 1], parse)
  }

  lemma {:induction false} BlocksCount(s: Summary, blocks: seq<Value>, n: string)
    ensures CountOf(Blocks(s, blocks).toolCounts, n) == CountOf(s.toolCounts, n) + multiset(BlockTools(blocks))[n]
    decreases |blocks|
  {
    if blocks != [] && !Throws(blocks[0]) {
      var s1 := BlockStep(s, blocks[0]);
      BlocksCount(s1, blocks[1..], n);
      var head := match ToolOf(blocks[0]) case Some(m) => [m] case None => [];
      assert multiset(BlockTools(blocks)) == multiset(head) + multiset(BlockTools(blocks[1..]));
    }
  }

  /** One line adds its own tool calls to the counts. */
  lemma LineCount(s: Summary, line: string, parse: string -> Option<Value>, n: string)
    ensures CountOf(LineStep(s, line, parse).toolCounts, n) == CountOf(s.toolCounts, n) + multiset(LineTools(line, parse))[n]
  {
    match parse(line)
    case None =>
    case Some(obj) =>
      if !Throws(obj) {
        var msg := Field(obj, "message");
        var role := Field(obj, "type");
        if role == Str("user") && Truthy(msg) {
          assert role != Str("assistant") by {
            assert "user"[0] != "assistant"[0];
          }
          assert LineTools(line, parse) == [];
        } else if role == Str("assistant") && Truthy(msg) && Field(msg, "content").Arr? {
          BlocksCount(s, Field(msg, "content").items, n);
        }
      }
  }

  /**
   * `toolCounts[n]` is the number of calls of tool `n` in the lines, and a
   * tool that is never called has no entry.
   */
  lemma {:induction false} ToolCountsAreCalls(lines: seq<string>, parse: string -> Option<Value>, n: string)
    ensures CountOf(SummaryOf(lines, parse).toolCounts, n) == multiset(AllTools(lines, parse))[n]
    ensures n in SummaryOf(lines, parse).toolCounts <==> n in AllTools(lines, parse)
  {
    if lines != [] {
      var front := lines[..|lines| - 1];
      ToolCountsAreCalls(front, parse, n);
      LineCount(SummaryOf(front, parse), lines[|lines| - 1], parse, n);
    }
    assert n in AllTools(lines, parse) <==> n in multiset(AllTools(lines, parse));
  }

  /** A later user line with a prompt replaces whatever prompt came before. */
  lemma LastPromptWins(lines: seq<string>, line: string, parse: string -> Option<Value>, obj: map<string, Value>)
    requires parse(line) == Some(Obj(obj))
    requires Get(obj, "type") == Str("user") && Truthy(Get(obj, "message"))
    requires UserPrompt(Get(obj, "message")).Some?
    ensures SummaryOf(lines + [line], parse).lastUserPrompt == UserPrompt(Get(obj, "message"))
  {
    assert (lines + [line])[..|lines|] == lines;
  }

  /** A line that does not parse leaves the summary as it was. */
  lemma UnparsedLineIgnored(lines: seq<string>, line: string, parse: string -> Option<Value>)
    requires parse(line).None?
    ensures SummaryOf(lines + [line], parse) == SummaryOf(lines, parse)
  {
    assert (lines + [line])[..|lines|] == lines;
  }

  /** The last `Some` of a sequence, `None` when every element is `None`. */
  function Latest(xs: seq<Option<string>>): Option<string> {
    if xs == [] then None
    else if xs[|xs| - 1].Some? then xs[|xs| - 1]
    else Latest(xs[..|xs| - 1])
  }

  /** `Latest` is the element at the greatest index holding a `Some`. */
  lemma {:induction false} LatestIsLast(xs: seq<Option<string>>)
    ensures Latest(xs).Some? <==> exists i :: 0 <= i < |xs| && xs[i].Some?
    ensures Latest(xs).Some? ==>
      exists i :: 0 <= i < |xs| && xs[i] == Latest(xs) && forall j :: i < j < |xs| ==> xs[j].None?
  {
    if xs != [] && xs[|xs| - 1].None? {
      var front := xs[..|xs| - 1];
      LatestIsLast(front);
      if Latest(xs).Some? {
        var i :| 0 <= i < |front| && front[i] == Latest(front) && forall j :: i < j < |front| ==> front[j].None?;
        assert xs[i] == Latest(xs) && forall j :: i < j < |xs| ==> xs[j].None?;
      } else {
        forall i | 0 <= i < |xs|
          ensures xs[i].None?
        {
          if i < |front| {
            assert xs[i] == front[i];
          }
        }
      }
    }
  }

  /** `Latest` over one more element in front: the later ones win, then that element. */
  lemma {:induction false} LatestCons(x: Option<string>, ys: seq<Option<string>>)
    ensures Latest([x] + ys) == (if Latest(ys).Some? then Latest(ys) else x)
    decreases |ys|
  {
    if ys != [] {
      assert ([x] + ys)[..|ys|] == [x] + ys[..|ys| - 1];
      LatestCons(x, ys[..|ys| - 1]);
    } else {
      assert [x] + ys == [x];
    }
  }

  /** The prompt a transcript line sets, when it is a user line that has one. */
  function LinePrompt(line: string, parse: string -> Option<Value>): Option<string> {
    match parse(line)
    case None => None
    case Some(obj) =>
      if !Throws(obj) && Field(obj, "type") == Str("user") && Truthy(Field(obj, "message")) then
        UserPrompt(Field(obj, "message"))
      else None
  }

  /** Each line's prompt, in order. */
  function Prompts(lines: seq<string>, parse: string -> Option<Value>): (r: seq<Option<string>>)
    ensures |r| == |lines|
  {
    if lines == [] then [] else Prompts(lines[..|lines| - 1], parse) + [LinePrompt(lines[|lines| - 1], parse)]
  }

  /** The prompt of the last user line that has one. */
  function LastUserPrompt(lines: seq<string>, parse: string -> Option<Value>): Option<string> {
    Latest(Prompts(lines, parse))
  }

  /** The text a block sets as the assistant summary: a `text` block's string, cut to 300 characters. */
  function BlockText(block: Value): Option<string> {
    if Field(block, "type") == Str("text") then
      match Text(Field(block, "text"))
      case Some(t) => Some(Take(t, PREVIEW_CHARS))
      case None => None
    else None
  }

  /** Each block's text, up to the first block that throws. */
  function BlockTexts(blocks: seq<Value>): seq<Option<string>> {
    if blocks == [] || Throws(blocks[0]) then [] else [BlockText(blocks[0])] + BlockTexts(blocks[1..])
  }

  /** The text an assistant line sets: its last text block before any block that throws. */
  function LineText(line: string, parse: string -> Option<Value>): Option<string> {
    match parse(line)
    case None => None
    case Some(obj) =>
      if Throws(obj) then None
      else
        var msg := Field(obj, "message");
        if Field(obj, "type") == Str("assistant") && Truthy(msg) && Field(msg, "content").Arr? then
          Latest(BlockTexts(Field(msg, "content").items))
        else None
  }

  /** Each line's assistant text, in order. */
  function LineTexts(lines: seq<string>, parse: string -> Option<Value>): (r: seq<Option<string>>)
    ensures |r| == |lines|
  {
    if lines == [] then [] else LineTexts(lines[..|lines| - 1], parse) + [LineText(lines[|lines| - 1], parse)]
  }

  /** The text of the last assistant line that sets one. */
  function LastAssistantText(lines: seq<string>, parse: string -> Option<Value>): Option<string> {
    Latest(LineTexts(lines, parse))
  }

  /** The block loop leaves the prompt alone and ends on the last text it met, or the text it started with. */
  lemma {:induction false} BlocksTexts(s: Summary, blocks: seq<Value>)
    ensures Blocks(s, blocks).lastUserPrompt == s.lastUserPrompt
    ensures Blocks(s, blocks).lastAssistantSummary ==
      (if Latest(BlockTexts(blocks)).Some? then Latest(BlockTexts(blocks)) else s.lastAssistantSummary)
    decreases |blocks|
  {
    if blocks != [] && !Throws(blocks[0]) {
      var s1 := BlockStep(s, blocks[0]);
      assert s1.lastUserPrompt == s.lastUserPrompt;
      assert s1.lastAssistantSummary == if BlockText(blocks[0]).Some? then BlockText(blocks[0]) else s.lastAssistantSummary;
      BlocksTexts(s1, blocks[1..]);
      LatestCons(BlockText(blocks[0]), BlockTexts(blocks[1..]));
    }
  }

  /** One line sets the prompt when it has one, and the text when it has one; otherwise they stay. */
  lemma LineTextsStep(s: Summary, line: string, parse: string -> Option<Value>)
    ensures LineStep(s, line, parse).lastUserPrompt ==
      (if LinePrompt(line, parse).Some? then LinePrompt(line, parse) else s.lastUserPrompt)
    ensures LineStep(s, line, parse).lastAssistantSummary ==
      (if LineText(line, parse).Some? then LineText(line, parse) else s.lastAssistantSummary)
  {
    match parse(line)
    case None =>
    case Some(obj) =>
      if !Throws(obj) {
        var msg := Field(obj, "message");
        var role := Field(obj, "type");
        if role == Str("user") && Truthy(msg) {
          assert role != Str("assistant") by {
            assert "user"[0] != "assistant"[0];
          }
        } else if role == Str("assistant") && Truthy(msg) && Field(msg, "content").Arr? {
          BlocksTexts(s, Field(msg, "content").items);
        }
      }
  }

  /**
   * The summary's last prompt is the prompt of the last user line that has
   * one, and its last assistant text that of the last assistant line that
   * has one; both are `None` when no line has one.
   */
  lemma {:induction false} SummaryTextsAreLast(lines: seq<string>, parse: string -> Option<Value>)
    ensures SummaryOf(lines, parse).lastUserPrompt == LastUserPrompt(lines, parse)
    ensures SummaryOf(lines, parse).lastAssistantSummary == LastAssistantText(lines, parse)
  {
    if lines != [] {
      var front := lines[..|lines| - 1];
      SummaryTextsAreLast(front, parse);
      LineTextsStep(SummaryOf(front, parse), lines[|lines| - 1], parse);
      assert Prompts(lines, parse)[..|lines| - 1] == Prompts(front, parse);
      assert LineTexts(lines, parse)[..|lines| - 1] == LineTexts(front, parse);
    }
  }

  /** `Object.entries(toolCounts)`. */
  function Entries(s: Summary): (r: seq<(string, int)>)
    requires WellFormed(s)
    ensures |r| == |s.toolOrder|
    ensures forall i :: 0 <= i < |r| ==> r[i] == (s.toolOrder[i], s.toolCounts[s.toolOrder[i]])
  {
    seq(|s.toolOrder|, i requires 0 <= i < |s.toolOrder| => (s.toolOrder[i], s.toolCounts[s.toolOrder[i]] as int))
  }

  function EntryCount(e: (string, int)): int {
    e.1
  }

  function Names(es: seq<(string, int)>): (r: seq<string>)
    ensures |r| == |es| && forall i :: 0 <= i < |r| ==> r[i] == es[i].0
  {
    seq(|es|, i requires 0 <= i < |es| => es[i].0)
  }

  /** `recentTools`: the entries sorted by count, most called first, cut to ten, as names. */
  function RecentTools(s: Summary): seq<string>
    requires WellFormed(s)
  {
    Names(TopEntries(s))
  }

  /** A transcript with no counted tools has no recent tools. */
  lemma NoRecentTools()
    ensures WellFormed(EMPTY) && RecentTools(EMPTY) == []
  {
    assert WellFormed(EMPTY);
    assert Entries(EMPTY) == [];
  }

  /** The sorted, cut entries `RecentTools` names. */
  function TopEntries(s: Summary): seq<(string, int)>
    requires WellFormed(s)
  {
    Take(Sorting.SortBy(Entries(s), Sorting.Descending(EntryCount)), RECENT_TOOLS)
  }

  /** What the cut keeps, in terms of the entries it was cut from. */
  lemma TopEntriesFacts(s: Summary)
    requires WellFormed(s)
    ensures var es := Entries(s);
            var top := TopEntries(s);
            && |top| <= RECENT_TOOLS
            && (|es| <= RECENT_TOOLS ==> |top| == |es|)
            && (forall x :: x in top ==> x in es)
            && (forall x :: x in es && x !in top ==> forall i :: 0 <= i < |top| ==> EntryCount(x) <= EntryCount(top[i]))
            && (forall i, j :: 0 <= i <= j < |top| ==> EntryCount(top[i]) >= EntryCount(top[j]))
  {
    Sorting.TopByKeyMembers(Entries(s), EntryCount, RECENT_TOOLS);
  }

  /** An entry of the cut is the entry of a counted tool, with that tool's count. */
  lemma TopEntryCounted(s: Summary, i: nat)
    requires WellFormed(s) && i < |TopEntries(s)|
    ensures TopEntries(s)[i].0 in s.toolCounts
    ensures TopEntries(s)[i].1 == s.toolCounts[TopEntries(s)[i].0]
  {
    var es := Entries(s);
    var top := TopEntries(s);
    assert top[i] in es by {
      TopEntriesFacts(s);
    }
    var k :| 0 <= k < |es| && es[k] == top[i];
    assert s.toolOrder[k] in s.toolOrder;
  }

  /** At most ten tools, each of them a counted one. */
  lemma RecentToolsCounted(s: Summary)
    requires WellFormed(s)
    ensures |RecentTools(s)| <= RECENT_TOOLS
    ensures forall n :: n in RecentTools(s) ==> n in s.toolCounts
  {
    var r := RecentTools(s);
    assert |r| <= RECENT_TOOLS by {
      TopEntriesFacts(s);
    }
    forall n | n in r
      ensures n in s.toolCounts
    {
      var i :| 0 <= i < |r| && r[i] == n;
      TopEntryCounted(s, i);
    }
  }

  /** The listed tools come most called first. */
  lemma RecentToolsByCount(s: Summary)
    requires WellFormed(s)
    ensures var r := RecentTools(s);
            forall i, j :: 0 <= i <= j < |r| ==>
              r[i] in s.toolCounts && r[j] in s.toolCounts && s.toolCounts[r[i]] >= s.toolCounts[r[j]]
  {
    var top := TopEntries(s);
    var r := RecentTools(s);
    forall i, j | 0 <= i <= j < |r|
      ensures r[i] in s.toolCounts && r[j] in s.toolCounts && s.toolCounts[r[i]] >= s.toolCounts[r[j]]
    {
      TopEntryCounted(s, i);
      TopEntryCounted(s, j);
      assert EntryCount(top[i]) >= EntryCount(top[j]) by {
        TopEntriesFacts(s);
      }
    }
  }

  /** With no more than ten tools counted, every one of them is listed. */
  lemma RecentToolsAll(s: Summary)
    requires WellFormed(s) && |s.toolCounts| <= RECENT_TOOLS
    ensures forall n :: n in s.toolCounts ==> n in RecentTools(s)
  {
    var es := Entries(s);
    var top := TopEntries(s);
    var r := RecentTools(s);
    DistinctKeys(s);
    assert forall x :: x in es ==> x in top by {
      Sorting.KeyComparatorsAntisymmetric(EntryCount);
      var sorted := Sorting.SortBy(es, Sorting.Descending(EntryCount));
      assert top == sorted;
      forall x | x in es
        ensures x in top
      {
        assert x in multiset(es);
      }
    }
    forall n | n in s.toolCounts
      ensures n in r
    {
      var k :| 0 <= k < |s.toolOrder| && s.toolOrder[k] == n;
      assert es[k] in es;
      var j :| 0 <= j < |top| && top[j] == es[k];
      assert r[j] == n;
    }
  }

  /** One tool left out against one listed. */
  lemma LeftOutPair(s: Summary, n: string, m: string)
    requires WellFormed(s) && n in s.toolCounts && n !in RecentTools(s) && m in RecentTools(s)
    ensures m in s.toolCounts && s.toolCounts[n] <= s.toolCounts[m]
  {
    var es := Entries(s);
    var top := TopEntries(s);
    var r := RecentTools(s);
    var k :| 0 <= k < |s.toolOrder| && s.toolOrder[k] == n;
    var j :| 0 <= j < |r| && r[j] == m;
    assert m in s.toolCounts by {
      TopEntryCounted(s, j);
    }
    var e := es[k];
    assert e == (n, s.toolCounts[n]);
    assert e !in top by {
      assert forall i :: 0 <= i < |top| ==> r[i] == top[i].0;
    }
    assert e in es;
    assert EntryCount(e) <= EntryCount(top[j]) by {
      TopEntriesFacts(s);
    }
    assert top[j] == (m, s.toolCounts[m]) by {
      assert top[j] in es by {
        TopEntriesFacts(s);
      }
      var k2 :| 0 <= k2 < |es| && es[k2] == top[j];
    }
  }

  /** No tool left out was called more often than a tool listed. */
  lemma RecentToolsLeftOut(s: Summary)
    requires WellFormed(s)
    ensures forall n, m :: n in s.toolCounts && n !in RecentTools(s) && m in RecentTools(s) ==>
              m in s.toolCounts && s.toolCounts[n] <= s.toolCounts[m]
  {
    forall n, m | n in s.toolCounts && n !in RecentTools(s) && m in RecentTools(s)
      ensures m in s.toolCounts && s.toolCounts[n] <= s.toolCounts[m]
    {
      LeftOutPair(s, n, m);
    }
  }

  /** A duplicate-free key order is as long as the key set is large. */
  lemma {:induction false} DistinctKeys(s: Summary)
    requires WellFormed(s)
    ensures |s.toolOrder| == |s.toolCounts|
  {
    var keys := set n | n in s.toolOrder;
    assert keys == s.toolCounts.Keys;
    DistinctSize(s.toolOrder);
  }

  lemma {:induction false} DistinctSize(xs: seq<string>)
    requires NoDuplicates(xs)
    ensures |set n | n in xs| == |xs|
  {
    if xs != [] {
      var front := xs[..|xs| - 1];
      var x := xs[|xs| - 1];
      DistinctSize(front);
      assert x !in front;
      assert (set n | n in xs) == (set n | n in front) + {x};
    }
  }
}
