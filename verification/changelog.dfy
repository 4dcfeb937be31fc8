/** The pure part of scripts/changelog-gen.mjs: commit subjects are grouped
    by their Conventional Commits type until the release sentinel, the groups
    are rendered as markdown sections, and changeset file names are checked
    against `/^[a-z]+-[a-z]+-[a-z]+\.md$/`. */
module Changelog {
  import opened Wrappers
  import opened Strings

  /** `commitTypes`, in the order the groups are created and rendered. */
  const CommitTypes: seq<string> :=
    ["build", "chore", "ci", "docs", "feat", "fix", "perf", "refactor", "revert", "style", "test", "other"]

  /** The group of every line without a recognised type. */
  const Other: string := "other"

  /** The subject of a release commit; history before it was already logged. */
  const Sentinel: string := "chore: version packages"

  /** `\w`: ASCII letters, digits and the underscore. */
  predicate IsWordChar(c: char)
  {
    'a' <= c <= 'z' || 'A' <= c <= 'Z' || '0' <= c <= '9' || c == '_'
  }

  /** What `.` does not match without the `s` flag. */
  predicate IsLineTerminator(c: char)
  {
    c == '\n' || c == '\r' || c == '\U{2028}' || c == '\U{2029}'
  }

  /** The length of the longest run of word characters at the start. */
  function WordLength(s: string): (n: nat)
    ensures n <= |s|
    ensures forall k :: 0 <= k < n ==> IsWordChar(s[k])
    ensures n < |s| ==> !IsWordChar(s[n])
    decreases |s|
  {
    if |s| == 0 || !IsWordChar(s[0]) then 0
    else
      var m := WordLength(s[1..]);
      assert forall k :: 1 <= k < m + 1 ==> s[k] == s[1..][k - 1];
      1 + m
  }

  /** Whether `\(.+\):` can finish with its `)` at some position from `k`
      on, the parenthesis opening at `open`: the characters after the `(`
      are not line terminators up to a `)` that is followed by `:` and that
      leaves at least one character inside. */
  function ScopeFrom(line: string, open: nat, k: nat): bool
    requires open < k
    decreases |line| - k
  {
    if k + 1 >= |line| then false
    else if k >= open + 2 && ClosesAt(line, k) then true
    else if IsLineTerminator(line[k]) then false
    else ScopeFrom(line, open, k + 1)
  }

  /** A `)` followed by `:` at position `j`. */
  predicate ClosesAt(line: string, j: nat)
  {
    j + 1 < |line| && line[j] == ')' && line[j + 1] == ':'
  }

  /** `\(.+\):` matches at `open`. */
  ghost predicate ScopeAt(line: string, open: nat)
  {
    && open < |line| && line[open] == '('
    && exists j :: open + 2 <= j && ClosesAt(line, j)
         && forall m :: open < m < j ==> !IsLineTerminator(line[m])
  }

  lemma {:induction false} ScopeFromFinds(line: string, open: nat, k: nat)
    requires open < k <= |line|
    requires forall m :: open < m < k ==> !IsLineTerminator(line[m])
    ensures ScopeFrom(line, open, k) <==>
      exists j :: k <= j && open + 2 <= j && ClosesAt(line, j)
        && forall m :: open < m < j ==> !IsLineTerminator(line[m])
    decreases |line| - k
  {
    if k + 1 >= |line| {
    } else if k >= open + 2 && ClosesAt(line, k) {
    } else if IsLineTerminator(line[k]) {
      forall j | k <= j && open + 2 <= j && ClosesAt(line, j)
        ensures exists m :: open < m < j && IsLineTerminator(line[m])
      {
        assert j != k;
        assert open < k < j && IsLineTerminator(line[k]);
      }
    } else {
      ScopeFromFinds(line, open, k + 1);
    }
  }

  /** Group 1 of `line.match(/^(\w+)(?:\(.+\))?:/)`, or None when it does
      not match. The word run is the longest one, since the character after
      any shorter prefix is a word character and neither `(` nor `:`. */
  function HeaderType(line: string): Option<string>
  {
    var n := WordLength(line);
    if n == 0 || n == |line| then None
    else if line[n] == ':' then Some(line[..n])
    else if line[n] == '(' && ScopeFrom(line, n, n + 1) then Some(line[..n])
    else None
  }

  /** The regular expression as a statement about the line: some non-empty
      prefix `w` of word characters is followed by `:` or by a scope and `:`. */
  ghost predicate HeaderMatch(line: string, w: string)
  {
    exists n :: 1 <= n < |line| && w == line[..n]
      && (forall k :: 0 <= k < n ==> IsWordChar(line[k]))
      && (line[n] == ':' || ScopeAt(line, n))
  }

  /** The computed group 1 is exactly what the regular expression admits. */
  lemma HeaderTypeMatches(line: string, w: string)
    ensures HeaderType(line) == Some(w) <==> HeaderMatch(line, w)
  {
    var n0 := WordLength(line);
    if n0 > 0 && n0 < |line| && line[n0] == '(' {
      ScopeFromFinds(line, n0, n0 + 1);
    }
    if HeaderMatch(line, w) {
      var n :| 1 <= n < |line| && w == line[..n]
        && (forall k :: 0 <= k < n ==> IsWordChar(line[k]))
        && (line[n] == ':' || ScopeAt(line, n));
      assert !IsWordChar(line[n]);
    }
  }

  /** The group a line goes to: its type when that is one of `commitTypes`,
      otherwise "other". */
  function Classify(line: string): (t: string)
    ensures t in CommitTypes
  {
    match HeaderType(line)
    case Some(w) => if w in CommitTypes then w else Other
    case None => Other
  }

  /** A line lands in a listed type's group exactly when the regular
      expression matches with that type as group 1. */
  lemma ClassifyByType(line: string, t: string)
    requires t in CommitTypes && t != Other
    ensures Classify(line) == t <==> HeaderMatch(line, t)
  {
    HeaderTypeMatches(line, t);
  }

  /** A line lands in "other" exactly when no listed type heads it. */
  lemma ClassifyOther(line: string)
    ensures Classify(line) == Other <==> forall t :: t in CommitTypes && t != Other ==> !HeaderMatch(line, t)
  {
    forall t | t in CommitTypes && t != Other
      ensures HeaderType(line) == Some(t) <==> HeaderMatch(line, t)
    {
      HeaderTypeMatches(line, t);
    }
  }

  /** An empty line has no type. */
  lemma EmptyLineIsOther()
    ensures Classify("") == Other
  {
  }

  type Groups = map<string, seq<string>>

  /** Every type has a group to push to. */
  predicate Ready(groups: Groups)
  {
    forall t :: t in CommitTypes ==> t in groups
  }

  /** The groups `readGitCommits` starts from: one empty list per type. */
  function EmptyGroups(): (g: Groups)
    ensures Ready(g)
    ensures forall t :: t in g ==> t in CommitTypes && g[t] == []
  {
    map t | t in CommitTypes :: []
  }

  /** `processLog` after the split: each line goes to its group until a line
      starting with the sentinel, which ends the walk with `true`. */
  function ProcessLines(lines: seq<string>, groups: Groups): (r: (Groups, bool))
    requires Ready(groups)
    ensures Ready(r.0) && r.0.Keys == groups.Keys
    decreases |lines|
  {
    if |lines| == 0 then (groups, false)
    else if StartsWith(lines[0], Sentinel) then (groups, true)
    else
      var t := Classify(lines[0]);
      ProcessLines(lines[1..], groups[t := groups[t] + [lines[0]]])
  }

  /** `processLog(log, groups)`. */
  function ProcessLog(log: string, groups: Groups): (Groups, bool)
    requires Ready(groups)
  {
    ProcessLines(Split(log, '\n'), groups)
  }

  /** The position of the first sentinel line, or the number of lines. */
  function StopAt(lines: seq<string>): (i: nat)
    ensures i <= |lines|
    ensures forall k :: 0 <= k < i ==> !StartsWith(lines[k], Sentinel)
    ensures i < |lines| ==> StartsWith(lines[i], Sentinel)
    decreases |lines|
  {
    if |lines| == 0 || StartsWith(lines[0], Sentinel) then 0
    else
      var k := StopAt(lines[1..]);
      assert forall m :: 1 <= m < k + 1 ==> lines[m] == lines[1..][m - 1];
      1 + k
  }

  /** The lines of type `t`, in their original order. */
  function Filter(lines: seq<string>, t: string): (r: seq<string>)
    ensures |r| <= |lines|
    decreases |lines|
  {
    if |lines| == 0 then []
    else (if Classify(lines[0]) == t then [lines[0]] else []) + Filter(lines[1..], t)
  }

  /** The line a non-sentinel line is filed under, appended to its group. */
  function FileLine(groups: Groups, line: string): (g: Groups)
    requires Ready(groups)
    ensures Ready(g)
  {
    groups[Classify(line) := groups[Classify(line)] + [line]]
  }

  lemma ProcessLinesStep(lines: seq<string>, groups: Groups)
    requires Ready(groups)
    requires |lines| > 0 && !StartsWith(lines[0], Sentinel)
    ensures ProcessLines(lines, groups) == ProcessLines(lines[1..], FileLine(groups, lines[0]))
  {
  }

  lemma StopAtStep(lines: seq<string>)
    requires |lines| > 0 && !StartsWith(lines[0], Sentinel)
    ensures StopAt(lines) == 1 + StopAt(lines[1..])
    ensures lines[..StopAt(lines)] == [lines[0]] + lines[1..][..StopAt(lines[1..])]
  {
    var k := StopAt(lines[1..]);
    assert StopAt(lines) == 1 + k;
    assert lines[..1 + k] == [lines[0]] + lines[1..][..k];
  }

  lemma FilterCons(line: string, rest: seq<string>, t: string)
    ensures Filter([line] + rest, t) == (if Classify(line) == t then [line] else []) + Filter(rest, t)
  {
    assert ([line] + rest)[1..] == rest;
  }

  /** Each group gains, in log order, the lines of its type that come before
      the first sentinel; the result is `true` exactly when there is one. */
  lemma {:induction false} ProcessLinesGroups(lines: seq<string>, groups: Groups, t: string)
    requires Ready(groups) && t in groups
    ensures ProcessLines(lines, groups).0[t] == groups[t] + Filter(lines[..StopAt(lines)], t)
    ensures ProcessLines(lines, groups).1 <==> StopAt(lines) < |lines|
    decreases |lines|
  {
    if |lines| == 0 || StartsWith(lines[0], Sentinel) {
      assert lines[..StopAt(lines)] == [];
    } else {
      var g1 := FileLine(groups, lines[0]);
      var rest := lines[1..][..StopAt(lines[1..])];
      ProcessLinesStep(lines, groups);
      StopAtStep(lines);
      ProcessLinesGroups(lines[1..], g1, t);
      FilterCons(lines[0], rest, t);
      var mine := if Classify(lines[0]) == t then [lines[0]] else [];
      assert g1[t] == groups[t] + mine;
      AppendAssociates(groups[t], mine, Filter(rest, t));
    }
  }

  /** From fresh groups, each type's group is the log's lines of that type
      before the first sentinel line, in log order. */
  lemma FreshLogGroups(log: string, t: string)
    requires t in CommitTypes
    ensures var lines := Split(log, '\n');
      ProcessLog(log, EmptyGroups()).0[t] == Filter(lines[..StopAt(lines)], t)
  {
    ProcessLinesGroups(Split(log, '\n'), EmptyGroups(), t);
  }

  /** How many lines the types in `ts` claim. */
  function Claimed(ts: seq<string>, lines: seq<string>): nat
    decreases |ts|
  {
    if |ts| == 0 then 0 else |Filter(lines, ts[0])| + Claimed(ts[1..], lines)
  }

  ghost predicate Distinct(ts: seq<string>)
  {
    forall i, j :: 0 <= i < j < |ts| ==> ts[i] != ts[j]
  }

  /** One more line is claimed by exactly one type of a list of distinct
      types, if its type is listed. */
  lemma {:induction false} ClaimedStep(ts: seq<string>, line: string, lines: seq<string>)
    requires Distinct(ts)
    ensures Claimed(ts, [line] + lines) == Claimed(ts, lines) + (if Classify(line) in ts then 1 else 0)
    decreases |ts|
  {
    if |ts| > 0 {
      assert ([line] + lines)[1..] == lines;
      assert Distinct(ts[1..]) by {
        assert forall i :: 0 <= i < |ts| - 1 ==> ts[1..][i] == ts[i + 1];
      }
      ClaimedStep(ts[1..], line, lines);
      assert Classify(line) in ts <==> Classify(line) == ts[0] || Classify(line) in ts[1..] by {
        assert ts == [ts[0]] + ts[1..];
      }
      if Classify(line) == ts[0] {
        assert Classify(line) !in ts[1..] by {
          forall i | 0 <= i < |ts| - 1
            ensures ts[1..][i] != ts[0]
          {
            assert ts[1..][i] == ts[i + 1];
          }
        }
      }
    }
  }

  /** Every line is classified into one of the types. */
  ghost predicate Covers(ts: seq<string>)
  {
    forall line :: Classify(line) in ts
  }

  lemma CommitTypesPartition()
    ensures Distinct(CommitTypes) && Covers(CommitTypes)
  {
  }

  lemma {:induction false} NothingClaimed(ts: seq<string>)
    ensures Claimed(ts, []) == 0
    decreases |ts|
  {
    if |ts| > 0 {
      NothingClaimed(ts[1..]);
    }
  }

  /** Distinct types that cover every classification claim each line
      exactly once. */
  lemma {:induction false} ClaimedOnce(ts: seq<string>, lines: seq<string>)
    requires Distinct(ts) && Covers(ts)
    ensures Claimed(ts, lines) == |lines|
    decreases |lines|
  {
    if |lines| == 0 {
      NothingClaimed(ts);
    } else {
      ClaimedOnce(ts, lines[1..]);
      ClaimedStep(ts, lines[0], lines[1..]);
      assert [lines[0]] + lines[1..] == lines;
    }
  }

  /** Every line is claimed by exactly one type: the group sizes add up to
      the number of lines. */
  lemma EveryLineGrouped(lines: seq<string>)
    ensures Claimed(CommitTypes, lines) == |lines|
  {
    CommitTypesPartition();
    ClaimedOnce(CommitTypes, lines);
  }

  /** The sizes of the groups of the listed types. */
  function Total(groups: Groups, ts: seq<string>): nat
    requires forall t :: t in ts ==> t in groups
    decreases |ts|
  {
    if |ts| == 0 then 0 else |groups[ts[0]]| + Total(groups, ts[1..])
  }

  lemma {:induction false} TotalGrows(lines: seq<string>, groups: Groups, ts: seq<string>)
    requires Ready(groups)
    requires forall t :: t in ts ==> t in groups
    ensures Total(ProcessLines(lines, groups).0, ts) == Total(groups, ts) + Claimed(ts, lines[..StopAt(lines)])
    decreases |ts|
  {
    if |ts| > 0 {
      ProcessLinesGroups(lines, groups, ts[0]);
      TotalGrows(lines, groups, ts[1..]);
    }
  }

  /** `processLog` files every line before the sentinel, and no other: the
      groups together grow by exactly that many lines. */
  lemma GroupedCount(lines: seq<string>, groups: Groups)
    requires Ready(groups)
    ensures Total(ProcessLines(lines, groups).0, CommitTypes) == Total(groups, CommitTypes) + StopAt(lines)
  {
    TotalGrows(lines, groups, CommitTypes);
    EveryLineGrouped(lines[..StopAt(lines)]);
  }

  /** `c.toUpperCase()` on ASCII letters. */
  function UpperAscii(c: char): (u: char)
    ensures 'a' <= c <= 'z' ==> 'A' <= u <= 'Z' && u as int == c as int - 32
    ensures !('a' <= c <= 'z') ==> u == c
  {
    if 'a' <= c <= 'z' then (c as int - 32) as char else c
  }

  /** `type.charAt(0).toUpperCase() + type.slice(1)`. */
  function Capitalize(t: string): (r: string)
    ensures |r| == |t|
    ensures |t| > 0 ==> r[0] == UpperAscii(t[0]) && r[1..] == t[1..]
  {
    if |t| == 0 then "" else [UpperAscii(t[0])] + t[1..]
  }

  /** `commits.map(msg => `- ${msg}`)`. */
  function Bullets(commits: seq<string>): (bs: seq<string>)
    ensures |bs| == |commits|
    ensures forall i :: 0 <= i < |commits| ==> bs[i] == "- " + commits[i]
  {
    seq(|commits|, i requires 0 <= i < |commits| => "- " + commits[i])
  }

  function Heading(t: string): string
  {
    "## " + Capitalize(t)
  }

  /** The markdown of one non-empty group. */
  function Section(t: string, commits: seq<string>): string
  {
    Heading(t) + "\n" + Join(Bullets(commits), '\n') + "\n"
  }

  /** `generateMarkdown(groups)` with the groups visited in `order`: empty
      groups are skipped. */
  function GenerateMarkdown(groups: Groups, order: seq<string>): string
    requires forall i :: 0 <= i < |order| ==> order[i] in groups
    decreases |order|
  {
    if |order| == 0 then ""
    else
      var t := order[0];
      (if |groups[t]| > 0 then Section(t, groups[t]) else "") + GenerateMarkdown(groups, order[1..])
  }

  /** The changelog: the groups in the order `commitTypes` created them. */
  function Markdown(groups: Groups): string
    requires Ready(groups)
  {
    GenerateMarkdown(groups, CommitTypes)
  }

  /** Sections come out in group order: one more group at the end adds its
      section, if any, at the end. */
  lemma {:induction false} MarkdownAppend(groups: Groups, order: seq<string>, t: string)
    requires forall i :: 0 <= i < |order| ==> order[i] in groups
    requires t in groups
    ensures GenerateMarkdown(groups, order + [t])
      == GenerateMarkdown(groups, order) + (if |groups[t]| > 0 then Section(t, groups[t]) else "")
    decreases |order|
  {
    if |order| == 0 {
      assert ([] + [t])[1..] == [];
    } else {
      assert (order + [t])[1..] == order[1..] + [t];
      MarkdownAppend(groups, order[1..], t);
    }
  }

  /** With no commits at all nothing is rendered. */
  lemma {:induction false} NoCommitsNoMarkdown(groups: Groups, order: seq<string>)
    requires forall i :: 0 <= i < |order| ==> order[i] in groups && groups[order[i]] == []
    ensures GenerateMarkdown(groups, order) == ""
    decreases |order|
  {
    if |order| > 0 {
      NoCommitsNoMarkdown(groups, order[1..]);
    }
  }

  /** A section is the heading line, one line per commit, and the empty
      remainder after the final newline. */
  lemma SectionIsJoin(t: string, commits: seq<string>)
    requires |commits| > 0
    ensures Section(t, commits) == Join([Heading(t)] + Bullets(commits) + [""], '\n')
  {
    var bs := Bullets(commits);
    JoinConcat(bs, [""], '\n');
    JoinConcat([Heading(t)], bs + [""], '\n');
    assert [Heading(t)] + bs + [""] == [Heading(t)] + (bs + [""]);
  }

  /** A section splits back into its heading, its bullets and a trailing
      empty line, as long as no commit subject holds a newline (none does
      after the log is split into lines). */
  lemma SectionLines(t: string, commits: seq<string>)
    requires |commits| > 0
    requires '\n' !in t
    requires forall i :: 0 <= i < |commits| ==> '\n' !in commits[i]
    ensures Split(Section(t, commits), '\n') == [Heading(t)] + Bullets(commits) + [""]
  {
    SectionIsJoin(t, commits);
    var parts := [Heading(t)] + Bullets(commits) + [""];
    forall i | 0 <= i < |parts|
      ensures '\n' !in parts[i]
    {
      if 1 <= i <= |commits| {
        assert parts[i] == "- " + commits[i - 1];
      } else if i == 0 {
        assert Heading(t) == "## " + Capitalize(t);
        if |t| > 0 {
          assert Capitalize(t) == [UpperAscii(t[0])] + t[1..];
          assert t[0] in t;
        }
      }
    }
    SplitJoin(parts, '\n');
  }

  /** `[a-z]+`. */
  predicate IsLowerRun(s: string)
  {
    |s| > 0 && forall i :: 0 <= i < |s| ==> 'a' <= s[i] <= 'z'
  }

  /** `CHANGE_LOG_MD_REGEX.test(name)`, read as: ends in ".md" and the rest
      splits on "-" into three lower-case runs. */
  function IsChangesetName(name: string): bool
  {
    && |name| >= 3 && name[|name| - 3..] == ".md"
    && var parts := Split(name[..|name| - 3], '-');
       |parts| == 3 && IsLowerRun(parts[0]) && IsLowerRun(parts[1]) && IsLowerRun(parts[2])
  }

  /** `^[a-z]+-[a-z]+-[a-z]+\.md$` as a statement about the name. */
  ghost predicate ChangesetShape(name: string)
  {
    exists a, b, c :: IsLowerRun(a) && IsLowerRun(b) && IsLowerRun(c) && name == a + "-" + b + "-" + c + ".md"
  }

  lemma JoinThree(a: string, b: string, c: string, sep: char)
    ensures Join([a, b, c], sep) == a + [sep] + b + [sep] + c
  {
    assert [a, b, c][1..] == [b, c];
    assert [b, c][1..] == [c];
    assert Join([b, c], sep) == b + [sep] + c;
    assert Join([a, b, c], sep) == a + [sep] + (b + [sep] + c);
  }

  /** `CHANGE_LOG_MD_REGEX.test` accepts exactly the names of that shape. */
  lemma ChangesetNameMatches(name: string)
    ensures IsChangesetName(name) <==> ChangesetShape(name)
  {
    if IsChangesetName(name) {
      var stem := name[..|name| - 3];
      var parts := Split(stem, '-');
      JoinSplit(stem, '-');
      JoinThree(parts[0], parts[1], parts[2], '-');
      assert parts == [parts[0], parts[1], parts[2]];
      assert name == stem + ".md";
      assert name == parts[0] + "-" + parts[1] + "-" + parts[2] + ".md";
    }
    if ChangesetShape(name) {
      var a, b, c :| IsLowerRun(a) && IsLowerRun(b) && IsLowerRun(c) && name == a + "-" + b + "-" + c + ".md";
      var stem := a + "-" + b + "-" + c;
      assert name == stem + ".md";
      assert name[..|name| - 3] == stem;
      JoinThree(a, b, c, '-');
      assert FreeOf([a, b, c], '-') by {
        assert '-' !in a && '-' !in b && '-' !in c;
      }
      SplitJoin([a, b, c], '-');
    }
  }
}
