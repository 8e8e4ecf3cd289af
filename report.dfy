/** The Markdown report over a list of update results: a summary of counts
    followed by one details block per result, in order. The report is a list
    of `Line`s, each rendered by `Line.Text`; the report text joins the
    rendered lines with newlines. */
module Report {
  import opened Wrappers
  import opened Text
  import opened Registry
  import opened Steps

  /** The three summary counts that filter the results. */
  datatype Tally = NeedsUpdate | Updated | Errored

  /** Whether result `r` is counted under tally `t`. */
  predicate Holds(t: Tally, r: UpdateResult) {
    match t
    case NeedsUpdate => r.needsUpdate
    case Updated => r.success && Present(r.prUrl)
    case Errored => !r.success
  }

  /** `sum(1 for r in results if ...)`: the results counted under `t`. */
  function Count(results: seq<UpdateResult>, t: Tally): nat {
    if results == [] then 0
    else Count(results[..|results| - 1], t) + (if Holds(t, results[|results| - 1]) then 1 else 0)
  }

  /** The positions of the results counted under `t`. */
  function Where(results: seq<UpdateResult>, t: Tally): set<nat> {
    set i: nat | i < |results| && Holds(t, results[i])
  }

  /** Each count is the number of results that pass its filter. */
  lemma {:induction false} CountIsFilter(results: seq<UpdateResult>, t: Tally)
    ensures Count(results, t) == |Where(results, t)|
  {
    if results != [] {
      var n := |results| - 1;
      var init := results[..n];
      CountIsFilter(init, t);
      assert n !in Where(init, t);
      assert Where(results, t) == Where(init, t) + (if Holds(t, results[n]) then {n} else {});
    }
  }

  /** Over consistent results, every successful update was an available
      update, and no result is both a successful update and an error. */
  lemma {:induction false} CountsAgree(results: seq<UpdateResult>)
    requires forall i :: 0 <= i < |results| ==> Consistent(results[i])
    ensures Count(results, Updated) <= Count(results, NeedsUpdate)
    ensures Count(results, Updated) + Count(results, Errored) <= |results|
  {
    if results != [] {
      CountsAgree(results[..|results| - 1]);
    }
  }

  /** The kinds of report line. */
  datatype Line =
    | Title
    | Generated(at: string)
    | Blank
    | SummaryHead
    | Total(n: nat)
    | Available(n: nat)
    | Successful(n: nat)
    | Errors(n: nat)
    | DetailsHead
    | Section(name: string, success: bool)    // opens the details block of one result
    | Status(needsUpdate: bool)
    | Pr(url: string)
    | ErrorLine(message: string)
    | Commits(oldCommit: string, newCommit: string)
  {
    /** The text of the line; the commits are cut to their first 8 characters. */
    function Text(): string {
      match this
      case Title => "# Cruft Update Report"
      case Generated(at) => "Generated: " + at
      case Blank => ""
      case SummaryHead => "## Summary"
      case Total(n) => "- Total repositories: " + Decimal(n)
      case Available(n) => "- Updates available: " + Decimal(n)
      case Successful(n) => "- Successful updates: " + Decimal(n)
      case Errors(n) => "- Errors: " + Decimal(n)
      case DetailsHead => "## Details"
      case Section(name, success) => "\n### " + (name + " " + (if success then "\U{2705}" else "\U{274C}"))
      case Status(needsUpdate) => "- Status: " + (if needsUpdate then "\U{1F4E6} needs update" else "\U{2713} up to date")
      case Pr(url) => "- PR: " + url
      case ErrorLine(message) => "- Error: " + message
      case Commits(oldCommit, newCommit) => "- Commits: " + ("`" + Take(oldCommit, 8) + "` \U{2192} `" + Take(newCommit, 8) + "`")
    }
  }

  /** The texts of `lines`, one per line and in order. */
  function Render(lines: seq<Line>): (texts: seq<string>)
    ensures |texts| == |lines|
  {
    seq(|lines|, k requires 0 <= k < |lines| => lines[k].Text())
  }

  lemma RenderSnoc(lines: seq<Line>, l: Line)
    ensures Render(lines + [l]) == Render(lines) + [l.Text()]
  {
    assert forall k :: 0 <= k < |lines| + 1 ==> Render(lines + [l])[k] == (Render(lines) + [l.Text()])[k];
  }

  lemma RenderAppend(a: seq<Line>, b: seq<Line>)
    ensures Render(a + b) == Render(a) + Render(b)
  {
    assert forall k :: 0 <= k < |a + b| ==> Render(a + b)[k] == (Render(a) + Render(b))[k];
  }

  /** The header and summary section. */
  function SummaryLines(results: seq<UpdateResult>, generatedAt: string): seq<Line> {
    [ Title,
      Generated(generatedAt),
      Blank,
      SummaryHead,
      Total(|results|),
      Available(Count(results, NeedsUpdate)),
      Successful(Count(results, Updated)),
      Errors(Count(results, Errored)),
      Blank,
      DetailsHead ]
  }

  /** The details block of one result: its heading and status, then the PR,
      the error and the commits, each only when present. */
  function DetailLines(r: UpdateResult): seq<Line> {
    [Section(r.repo.name, r.success), Status(r.needsUpdate)]
    + (if Present(r.prUrl) then [Pr(r.prUrl.value)] else [])
    + (if Present(r.error) then [ErrorLine(r.error.value)] else [])
    + (if Present(r.oldCommit) && Present(r.newCommit) then [Commits(r.oldCommit.value, r.newCommit.value)] else [])
  }

  /** The details blocks of all results, in order. */
  function Details(results: seq<UpdateResult>): seq<Line> {
    if results == [] then []
    else Details(results[..|results| - 1]) + DetailLines(results[|results| - 1])
  }

  /** The report lines up to one more result extend those before it by the
      result's block. */
  lemma ReportStep(results: seq<UpdateResult>, generatedAt: string, i: nat)
    requires i < |results|
    ensures Render(SummaryLines(results, generatedAt) + Details(results[..i + 1]))
         == Render(SummaryLines(results, generatedAt) + Details(results[..i])) + Render(DetailLines(results[i]))
  {
    var summary := SummaryLines(results, generatedAt);
    assert results[..i + 1][..i] == results[..i];
    assert summary + Details(results[..i + 1]) == (summary + Details(results[..i])) + DetailLines(results[i]);
    RenderAppend(summary + Details(results[..i]), DetailLines(results[i]));
  }

  /** The texts of a details block, in the order they are appended. */
  lemma RenderDetailLines(r: UpdateResult)
    ensures Render(DetailLines(r))
         == [Section(r.repo.name, r.success).Text(), Status(r.needsUpdate).Text()]
          + (if Present(r.prUrl) then [Pr(r.prUrl.value).Text()] else [])
          + (if Present(r.error) then [ErrorLine(r.error.value).Text()] else [])
          + (if Present(r.oldCommit) && Present(r.newCommit)
             then [Commits(r.oldCommit.value, r.newCommit.value).Text()] else [])
  {
    var head := [Section(r.repo.name, r.success), Status(r.needsUpdate)];
    var pr := if Present(r.prUrl) then [Pr(r.prUrl.value)] else [];
    var err := if Present(r.error) then [ErrorLine(r.error.value)] else [];
    var commits := if Present(r.oldCommit) && Present(r.newCommit)
      then [Commits(r.oldCommit.value, r.newCommit.value)] else [];
    RenderAppend(head + pr + err, commits);
    RenderAppend(head + pr, err);
    RenderAppend(head, pr);
    RenderSnoc([head[0]], head[1]);
    RenderSnoc([], head[0]);
    assert [head[0]] + [head[1]] == head;
    assert [] + [head[0]] == [head[0]];
  }

  /** All lines of the report. */
  function ReportLines(results: seq<UpdateResult>, generatedAt: string): seq<Line> {
    SummaryLines(results, generatedAt) + Details(results)
  }

  /** The report text. */
  function ReportText(results: seq<UpdateResult>, generatedAt: string): string {
    Join(Render(ReportLines(results, generatedAt)), "\n")
  }

  /** The summary states the number of results, and for each count the
      number of results that pass its filter. */
  lemma ReportCounts(results: seq<UpdateResult>, generatedAt: string)
    ensures var lines := ReportLines(results, generatedAt);
      && lines[4] == Total(|results|)
      && lines[5] == Available(|Where(results, NeedsUpdate)|)
      && lines[6] == Successful(|Where(results, Updated)|)
      && lines[7] == Errors(|Where(results, Errored)|)
  {
    CountIsFilter(results, NeedsUpdate);
    CountIsFilter(results, Updated);
    CountIsFilter(results, Errored);
  }

  /** `text` is `caption` followed by the decimal digits of `n`: at least
      one digit, and no leading zero unless the number is just "0". */
  predicate ShowsCount(text: string, caption: string, n: nat) {
    |caption| < |text| && text[..|caption|] == caption
    && (forall k :: |caption| <= k < |text| ==> '0' <= text[k] <= '9')
    && (text[|caption|] == '0' ==> |text| == |caption| + 1)
    && DigitsValue(text[|caption|..]) == n
  }

  lemma CountLineShows(caption: string, n: nat)
    ensures ShowsCount(caption + Decimal(n), caption, n)
  {
    var text := caption + Decimal(n);
    assert text[..|caption|] == caption && text[|caption|..] == Decimal(n);
    DecimalValue(n);
    DecimalLeadingDigit(n);
  }

  /** Among the rendered report lines, the four summary lines read back as
      the number of results and the sizes of the three filters over them. */
  lemma ReportCountTexts(results: seq<UpdateResult>, generatedAt: string)
    ensures var texts := Render(ReportLines(results, generatedAt));
      && ShowsCount(texts[4], "- Total repositories: ", |results|)
      && ShowsCount(texts[5], "- Updates available: ", |Where(results, NeedsUpdate)|)
      && ShowsCount(texts[6], "- Successful updates: ", |Where(results, Updated)|)
      && ShowsCount(texts[7], "- Errors: ", |Where(results, Errored)|)
  {
    ReportCounts(results, generatedAt);
    CountLineShows("- Total repositories: ", |results|);
    CountLineShows("- Updates available: ", |Where(results, NeedsUpdate)|);
    CountLineShows("- Successful updates: ", |Where(results, Updated)|);
    CountLineShows("- Errors: ", |Where(results, Errored)|);
  }

  /** The section lines among `lines`, in order. */
  function Sections(lines: seq<Line>): seq<Line> {
    if lines == [] then []
    else Sections(lines[..|lines| - 1]) + (if lines[|lines| - 1].Section? then [lines[|lines| - 1]] else [])
  }

  lemma {:induction false} SectionsAppend(a: seq<Line>, b: seq<Line>)
    ensures Sections(a + b) == Sections(a) + Sections(b)
  {
    if b != [] {
      var n := |b| - 1;
      assert (a + b)[..|a + b| - 1] == a + b[..n];
      assert (a + b)[|a + b| - 1] == b[n];
      SectionsAppend(a, b[..n]);
    } else {
      assert a + b == a;
    }
  }

  /** Lines none of which is a section line hold no section. */
  lemma {:induction false} NoSections(lines: seq<Line>)
    requires forall k :: 0 <= k < |lines| ==> !lines[k].Section?
    ensures Sections(lines) == []
  {
    if lines != [] {
      NoSections(lines[..|lines| - 1]);
    }
  }

  /** Each details block has exactly one section line, its first. */
  lemma BlockSections(r: UpdateResult)
    ensures Sections(DetailLines(r)) == [Section(r.repo.name, r.success)]
  {
    var head := [Section(r.repo.name, r.success)];
    var rest := DetailLines(r)[1..];
    assert DetailLines(r) == head + rest;
    NoSections(rest);
    SectionsAppend(head, rest);
    assert head[..0] == [];
  }

  /** The details have one section line per result, in the order of the results. */
  lemma {:induction false} DetailSections(results: seq<UpdateResult>)
    ensures |Sections(Details(results))| == |results|
    ensures forall i :: 0 <= i < |results| ==>
      Sections(Details(results))[i] == Section(results[i].repo.name, results[i].success)
  {
    if results != [] {
      var n := |results| - 1;
      DetailSections(results[..n]);
      SectionsAppend(Details(results[..n]), DetailLines(results[n]));
      BlockSections(results[n]);
    }
  }

  lemma SummaryHasNoSections(results: seq<UpdateResult>, generatedAt: string)
    ensures Sections(SummaryLines(results, generatedAt)) == []
  {
    NoSections(SummaryLines(results, generatedAt));
  }

  /** The report has exactly one section per result, in the order of the
      results, each naming the repository and its success. */
  lemma ReportSections(results: seq<UpdateResult>, generatedAt: string)
    ensures var s := Sections(ReportLines(results, generatedAt));
      && |s| == |results|
      && forall i :: 0 <= i < |results| ==> s[i] == Section(results[i].repo.name, results[i].success)
  {
    var summary := SummaryLines(results, generatedAt);
    SummaryHasNoSections(results, generatedAt);
    SectionsAppend(summary, Details(results));
    DetailSections(results);
  }

  /** A heading in the text: a line that starts with a newline and `### `. */
  predicate IsHeading(text: string) {
    |text| >= 5 && text[..5] == "\n### "
  }

  lemma HeadingPrefix(rest: string)
    ensures IsHeading("\n### " + rest)
  {
    assert ("\n### " + rest)[..5] == "\n### ";
  }

  lemma NotHeading(text: string)
    requires text == [] || text[0] != '\n'
    ensures !IsHeading(text)
  {
    if |text| >= 5 {
      assert text[..5][0] == text[0];
    }
  }

  /** Section lines, and only they, render as headings. */
  lemma HeadingText(l: Line)
    ensures IsHeading(l.Text()) <==> l.Section?
  {
    if l.Section? {
      HeadingPrefix(l.name + " " + (if l.success then "\U{2705}" else "\U{274C}"));
    } else {
      assert l.Text() == [] || l.Text()[0] in "#G-";
      NotHeading(l.Text());
    }
  }

  /** The heading texts among `texts`, in order. */
  function Headings(texts: seq<string>): seq<string> {
    if texts == [] then []
    else Headings(texts[..|texts| - 1]) + (if IsHeading(texts[|texts| - 1]) then [texts[|texts| - 1]] else [])
  }

  /** The headings of rendered lines are the rendered section lines. */
  lemma {:induction false} HeadingsRendered(lines: seq<Line>)
    ensures Headings(Render(lines)) == Render(Sections(lines))
  {
    if lines != [] {
      var n := |lines| - 1;
      var last := lines[n];
      HeadingsRendered(lines[..n]);
      HeadingText(last);
      assert Render(lines)[..n] == Render(lines[..n]);
      RenderAppend(Sections(lines[..n]), if last.Section? then [last] else []);
    }
  }

  /** The rendered report lines hold exactly one heading per result, in the
      order of the results, each the rendered section line of that result. */
  lemma ReportHeadings(results: seq<UpdateResult>, generatedAt: string)
    ensures var h := Headings(Render(ReportLines(results, generatedAt)));
      && |h| == |results|
      && forall i :: 0 <= i < |results| ==> h[i] == Section(results[i].repo.name, results[i].success).Text()
  {
    HeadingsRendered(ReportLines(results, generatedAt));
    ReportSections(results, generatedAt);
  }

  /** A line that starts `- Commits: `. */
  predicate IsCommitsLine(text: string) {
    |text| >= 11 && text[..11] == "- Commits: "
  }

  lemma CommitsPrefix(rest: string)
    ensures IsCommitsLine("- Commits: " + rest)
  {
    assert ("- Commits: " + rest)[..11] == "- Commits: ";
  }

  lemma NotCommits(text: string)
    requires |text| < 3 || text[0] != '-' || text[2] != 'C'
    ensures !IsCommitsLine(text)
  {
    if |text| >= 11 {
      assert text[..11][0] == text[0] && text[..11][2] == text[2];
    }
  }

  /** Commits lines, and only they, render with the `- Commits: ` prefix. */
  lemma CommitsText(l: Line)
    ensures IsCommitsLine(l.Text()) <==> l.Commits?
  {
    if l.Commits? {
      CommitsPrefix("`" + Take(l.oldCommit, 8) + "` \U{2192} `" + Take(l.newCommit, 8) + "`");
    } else {
      assert |l.Text()| < 3 || l.Text()[0] != '-' || l.Text()[2] != 'C';
      NotCommits(l.Text());
    }
  }

  /** A details block shows a Commits line exactly when both commits are
      present and non-empty; it is then the block's last line, with each
      commit cut to at most 8 characters. */
  lemma CommitsShown(r: UpdateResult)
    ensures var texts := Render(DetailLines(r));
      (exists k :: 0 <= k < |texts| && IsCommitsLine(texts[k])) <==> Present(r.oldCommit) && Present(r.newCommit)
    ensures Present(r.oldCommit) && Present(r.newCommit) ==>
      var lines := DetailLines(r);
      && lines[|lines| - 1] == Commits(r.oldCommit.value, r.newCommit.value)
      && |Take(r.oldCommit.value, 8)| <= 8 && Take(r.oldCommit.value, 8) <= r.oldCommit.value
      && |Take(r.newCommit.value, 8)| <= 8 && Take(r.newCommit.value, 8) <= r.newCommit.value
  {
    var lines := DetailLines(r);
    var texts := Render(lines);
    forall k | 0 <= k < |lines|
      ensures IsCommitsLine(texts[k]) <==> lines[k].Commits?
    {
      CommitsText(lines[k]);
    }
    if Present(r.oldCommit) && Present(r.newCommit) {
      assert lines[|lines| - 1].Commits?;
    }
  }
}
