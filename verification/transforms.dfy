/** The string transforms of the plugin-system examples: the shebang line,
    the licence banner, and indentation removal. */
module TextTransforms {
  import opened Strings

  const ShebangLine: string := "#!/usr/bin/env node\n"

  /** `'#!/usr/bin/env node\n' + code`. */
  function WithShebang(code: string): (r: string)
    ensures |r| == |code| + 20
    ensures StartsWith(r, ShebangLine) && r[|ShebangLine|..] == code
  {
    ShebangLine + code
  }

  /** The licence text inside a block comment: `/*\n${licence}\n*/`. */
  function Banner(licence: string): string
  {
    "/*\n" + licence + "\n*/"
  }

  /** `l + '\n\n' + code` with `l` the banner. The code is a suffix of the
      result, and the result is 8 characters longer than licence and code
      together. */
  function WithLicence(licence: string, code: string): (r: string)
    ensures |r| == |code| + |licence| + 8
    ensures r[|r| - |code|..] == code
    ensures StartsWith(r, "/*\n")
  {
    Banner(licence) + "\n\n" + code
  }

  /** The banner can be taken apart again: the licence text and the code are
      both recovered from the output, so distinct inputs give distinct
      outputs. */
  lemma LicenceRecoverable(licence: string, code: string)
    ensures var r := WithLicence(licence, code);
      && r[3..3 + |licence|] == licence
      && r[3 + |licence|..|licence| + 8] == "\n*/\n\n"
      && r[|licence| + 8..] == code
  {
    var r := WithLicence(licence, code);
    assert r == "/*\n" + licence + "\n*/\n\n" + code;
  }

  /** Each line of `code` trimmed of its leading whitespace:
      `code.split('\n').map(c => c.trimStart()).join('\n')`. */
  function TrimLines(lines: seq<string>): (r: seq<string>)
    ensures |r| == |lines|
    ensures forall i :: 0 <= i < |lines| ==> r[i] == TrimStart(lines[i])
  {
    seq(|lines|, i requires 0 <= i < |lines| => TrimStart(lines[i]))
  }

  function RemoveIndentation(code: string): string
  {
    Join(TrimLines(Split(code, '\n')), '\n')
  }

  /** The output has as many lines as the input, and each output line is the
      input line with its leading whitespace removed. */
  lemma LinesOfRemoveIndentation(code: string)
    ensures var before, after := Split(code, '\n'), Split(RemoveIndentation(code), '\n');
      && |after| == |before|
      && forall i :: 0 <= i < |before| ==> after[i] == TrimStart(before[i])
  {
    var lines := Split(code, '\n');
    var trimmed := TrimLines(lines);
    forall i | 0 <= i < |trimmed|
      ensures '\n' !in trimmed[i]
    {
      assert trimmed[i] == lines[i][|lines[i]| - |trimmed[i]|..];
    }
    SplitJoin(trimmed, '\n');
  }

  /** Removing indentation twice is the same as removing it once. */
  lemma RemoveIndentationIdempotent(code: string)
    ensures RemoveIndentation(RemoveIndentation(code)) == RemoveIndentation(code)
  {
    var once := RemoveIndentation(code);
    LinesOfRemoveIndentation(code);
    var lines := Split(once, '\n');
    assert TrimLines(lines) == lines by {
      forall i | 0 <= i < |lines|
        ensures TrimStart(lines[i]) == lines[i]
      {
        TrimStartIdempotent(Split(code, '\n')[i]);
      }
    }
    JoinSplit(once, '\n');
  }
}
