/** `PromptFixerAgent.fix` (agents/fixer.py): ask the model to rewrite the
    prompt, keep the reply's bullet lines, drop those that share no keyword
    with the original prompt, and return the first two. */
module Fixer {
  import opened Text
  import opened Replies
  import opened Lists

  /** The bullet sign `•` (U+2022). */
  const BulletSign: char := '\U{2022}'

  /** The characters `lstrip("•- ")` removes from the front of a bullet line. */
  const Markers: set<char> := {BulletSign, '-', ' '}

  const RequestHeader: string := "PROMPT:\n"
  const RequestTrailer: string := "\n\nRewrite per your instructions above."

  // ---------------------------------------------------------------------
  // The request

  /** The user message the fixer sends for `original`. */
  function Request(original: string): string
  {
    RequestHeader + Strip(original) + RequestTrailer
  }

  /** Reads the prompt back out of a request, if the text has the request's
      header and trailer. */
  function PromptOfRequest(ask: string): (p: Option<string>)
    ensures p.Some? ==> |p.value| + |RequestHeader| + |RequestTrailer| == |ask|
  {
    if |ask| >= |RequestHeader| + |RequestTrailer|
       && ask[..|RequestHeader|] == RequestHeader
       && ask[|ask| - |RequestTrailer|..] == RequestTrailer
    then Some(ask[|RequestHeader|..|ask| - |RequestTrailer|])
    else None
  }

  /** The request carries exactly the stripped prompt between its fixed
      header and trailer. */
  lemma RequestRoundTrip(original: string)
    ensures PromptOfRequest(Request(original)) == Some(Strip(original))
  {
    var ask := Request(original);
    assert ask[..|RequestHeader|] == RequestHeader;
    assert ask[|ask| - |RequestTrailer|..] == RequestTrailer;
    assert ask[|RequestHeader|..|ask| - |RequestTrailer|] == Strip(original);
  }

  // ---------------------------------------------------------------------
  // Bullet extraction

  /** `ln.lstrip().startswith(("•", "-"))`. */
  predicate IsBulletLine(ln: string) {
    var t := LStrip(ln);
    t != [] && (t[0] == BulletSign || t[0] == '-')
  }

  /** `ln.lstrip("•- ").strip()`. */
  function CleanBullet(ln: string): (b: string)
    ensures Trimmed(b)
  {
    StripSpec(LStripChars(ln, Markers));
    Strip(LStripChars(ln, Markers))
  }

  /** `[ln.lstrip("•- ").strip() for ln in lines if ln.lstrip().startswith(("•", "-"))]`. */
  function ExtractBullets(lines: seq<string>): seq<string>
  {
    Comprehension(lines, IsBulletLine, CleanBullet)
  }

  // ---------------------------------------------------------------------
  // Keywords: re.findall(r"[A-Za-z]{4,}", original_prompt), lower-cased

  predicate IsAsciiLetter(c: char) {
    'A' <= c <= 'Z' || 'a' <= c <= 'z'
  }

  /** The end of the run of ASCII letters that starts at `i`. */
  function LetterRunEnd(s: string, i: nat): (j: nat)
    requires i <= |s|
    ensures i <= j <= |s|
    ensures j == |s| || !IsAsciiLetter(s[j])
    decreases |s| - i
  {
    if i < |s| && IsAsciiLetter(s[i]) then LetterRunEnd(s, i + 1) else i
  }

  /** Everything before `LetterRunEnd` is a letter. */
  lemma {:induction false} LettersUpToRunEnd(s: string, i: nat)
    requires i <= |s|
    ensures forall m :: i <= m < LetterRunEnd(s, i) ==> IsAsciiLetter(s[m])
    decreases |s| - i
  {
    if i < |s| && IsAsciiLetter(s[i]) {
      LettersUpToRunEnd(s, i + 1);
    }
  }

  /** `s[a..e]` is a run of at least four ASCII letters that cannot be
      extended on either side. */
  predicate MaximalRun(s: string, a: int, e: int) {
    && 0 <= a && a + 4 <= e <= |s|
    && (forall m :: a <= m < e ==> IsAsciiLetter(s[m]))
    && (a == 0 || !IsAsciiLetter(s[a - 1]))
    && (e == |s| || !IsAsciiLetter(s[e]))
  }

  /** The scan `re.findall` makes from position `i`: a greedy match of four
      or more letters is taken whole and scanning resumes after it;
      otherwise it moves on by one character. */
  function RunsFrom(s: string, i: nat): seq<string>
    requires i <= |s|
    decreases |s| - i
  {
    if i == |s| then []
    else
      var j := LetterRunEnd(s, i);
      if j - i >= 4 then [s[i..j]] + RunsFrom(s, j) else RunsFrom(s, i + 1)
  }

  function LowerAll(ws: seq<string>): (r: seq<string>)
    ensures |r| == |ws|
  {
    if ws == [] then [] else [Lower(ws[0])] + LowerAll(ws[1..])
  }

  lemma {:induction false} LowerAllAt(ws: seq<string>, n: nat)
    requires n < |ws|
    ensures LowerAll(ws)[n] == Lower(ws[n])
  {
    if n > 0 {
      LowerAllAt(ws[1..], n - 1);
    }
  }

  /** `[w.lower() for w in re.findall(r"[A-Za-z]{4,}", original)]`. */
  function Keywords(original: string): seq<string>
  {
    LowerAll(RunsFrom(original, 0))
  }

  /** A letter run is ended by its first non-letter. */
  lemma {:induction false} RunEndUnique(s: string, a: nat, e: nat)
    requires a <= e <= |s|
    requires forall m :: a <= m < e ==> IsAsciiLetter(s[m])
    requires e == |s| || !IsAsciiLetter(s[e])
    ensures LetterRunEnd(s, a) == e
    decreases e - a
  {
    if a < e {
      RunEndUnique(s, a + 1, e);
    }
  }

  /** Every match the scan returns is a maximal run at or after `i`. */
  lemma {:induction false} RunsFromSound(s: string, i: nat)
    requires i <= |s|
    requires i == 0 || !IsAsciiLetter(s[i - 1]) || LetterRunEnd(s, i) - i < 4
    ensures forall w :: w in RunsFrom(s, i) ==>
              exists a, e :: i <= a && MaximalRun(s, a, e) && w == s[a..e]
    decreases |s| - i
  {
    if i < |s| {
      var j := LetterRunEnd(s, i);
      LettersUpToRunEnd(s, i);
      if j - i >= 4 {
        assert MaximalRun(s, i, j);
        RunEndUnique(s, j, j);
        RunsFromSound(s, j);
        forall w | w in RunsFrom(s, i)
          ensures exists a, e :: i <= a && MaximalRun(s, a, e) && w == s[a..e]
        {
          if w != s[i..j] {
            assert w in RunsFrom(s, j);
          }
        }
      } else {
        if IsAsciiLetter(s[i]) {
          RunEndUnique(s, i + 1, j);
        }
        RunsFromSound(s, i + 1);
      }
    }
  }

  /** Every maximal run at or after `i` is among the scan's matches. */
  lemma {:induction false} RunsFromComplete(s: string, i: nat, a: int, e: int)
    requires i <= a && MaximalRun(s, a, e)
    ensures s[a..e] in RunsFrom(s, i)
    decreases |s| - i
  {
    var j := LetterRunEnd(s, i);
    LettersUpToRunEnd(s, i);
    RunEndUnique(s, a, e);
    if j - i >= 4 {
      if a != i {
        assert !IsAsciiLetter(s[a - 1]);
        assert a >= j;
        RunsFromComplete(s, j, a, e);
      }
    } else {
      assert a != i;
      RunsFromComplete(s, i + 1, a, e);
    }
  }

  /** The keywords are exactly the lower-cased maximal runs of four or more
      ASCII letters of the prompt. */
  lemma KeywordsAreMaximalRuns(original: string, k: string)
    ensures k in Keywords(original) <==>
            exists a, e :: MaximalRun(original, a, e) && k == Lower(original[a..e])
  {
    var runs := RunsFrom(original, 0);
    RunsFromSound(original, 0);
    if k in Keywords(original) {
      var n :| 0 <= n < |runs| && Keywords(original)[n] == k;
      LowerAllAt(runs, n);
      assert runs[n] in runs;
    }
    if exists a, e :: MaximalRun(original, a, e) && k == Lower(original[a..e]) {
      var a, e :| MaximalRun(original, a, e) && k == Lower(original[a..e]);
      RunsFromComplete(original, 0, a, e);
      var n :| 0 <= n < |runs| && runs[n] == original[a..e];
      LowerAllAt(runs, n);
      assert Keywords(original)[n] == k;
    }
  }

  /** Every keyword has at least four characters. */
  lemma KeywordsAreLong(original: string, k: string)
    requires k in Keywords(original)
    ensures |k| >= 4
  {
    KeywordsAreMaximalRuns(original, k);
  }

  // ---------------------------------------------------------------------
  // Keyword filter and truncation

  /** `any(k in b.lower() for k in keywords)`. */
  predicate MentionsKeyword(b: string, keywords: seq<string>) {
    exists k :: k in keywords && Contains(Lower(b), k)
  }

  function Mentions(keywords: seq<string>): string -> bool
  {
    b => MentionsKeyword(b, keywords)
  }

  /** `[b for b in bullets if any(k in b.lower() for k in keywords)]`. */
  function KeepMentioning(bullets: seq<string>, keywords: seq<string>): seq<string>
  {
    Comprehension(bullets, Mentions(keywords), Id)
  }

  /** `xs[:2]`. */
  function FirstTwo(xs: seq<string>): seq<string>
  {
    if |xs| <= 2 then xs else xs[..2]
  }

  /** A reply line that yields a bullet kept by the keyword filter. */
  predicate Passes(keywords: seq<string>, ln: string) {
    IsBulletLine(ln) && MentionsKeyword(CleanBullet(ln), keywords)
  }

  function PassesFor(keywords: seq<string>): string -> bool
  {
    ln => Passes(keywords, ln)
  }

  /** The kept bullets read as one pass over the reply lines. */
  function Passing(keywords: seq<string>, lines: seq<string>): seq<string>
  {
    Comprehension(lines, PassesFor(keywords), CleanBullet)
  }

  /** The first two passing lines, cleaned: the one-pass reading of what
      `fix` returns for the lines of the reply, given the prompt's keywords. */
  function Select(keywords: seq<string>, lines: seq<string>): seq<string>
  {
    FirstTwo(Passing(keywords, lines))
  }

  /** What `fix` returns for reply text `txt`, step by step as written:
      split into lines, extract the bullets, keep those mentioning a
      keyword, cut to two. */
  function FixText(original: string, txt: string): (r: seq<string>)
    ensures |r| <= 2
    ensures r == Select(Keywords(original), SplitLines(txt))
  {
    var lines, keywords := SplitLines(txt), Keywords(original);
    SelectFiltersOnce(keywords, lines);
    FirstTwo(KeepMentioning(ExtractBullets(lines), keywords))
  }

  /** `PromptFixerAgent.fix`: one user turn holding the request goes to the
      model; its reply is unwrapped and filtered. A `None` reply has no
      `get`, and a `None` content has no `splitlines`. */
  function Fix(original: string, model: seq<Message> -> Reply): (r: Result<seq<string>>)
    ensures r.Ok? ==> |r.value| <= 2
    ensures r.Err? ==> r.error == NoneHasNoAttribute("get") || r.error == NoneHasNoAttribute("splitlines")
  {
    match Unwrap(model(UserTurn(Request(original))))
    case Err(e) => Err(e)
    case Ok(None) => Err(NoneHasNoAttribute("splitlines"))
    case Ok(Some(txt)) => Ok(FixText(original, txt))
  }

  // ---------------------------------------------------------------------
  // Properties of fix

  /** `fix` fails exactly on a `None` reply or a `None` content; otherwise it
      filters the reply to the request built from `original`. */
  lemma FixOutcome(original: string, model: seq<Message> -> Reply)
    ensures var reply := model(UserTurn(Request(original)));
            && (Fix(original, model).Err? <==> reply == NoReply || reply == Record(Null))
            && (reply.Text? ==> Fix(original, model) == Ok(FixText(original, reply.text)))
            && (reply.Record? && reply.content.Value? ==>
                  Fix(original, model) == Ok(FixText(original, reply.content.text)))
  {
  }

  /** The model is asked exactly once, with one user turn holding the
      request: any model that answers that turn alike gives the same result. */
  lemma FixSendsOnlyRequest(original: string, model: seq<Message> -> Reply, model': seq<Message> -> Reply)
    requires model'(UserTurn(Request(original))) == model(UserTurn(Request(original)))
    ensures Fix(original, model') == Fix(original, model)
  {
  }

  /** A dict reply without `content` reads as `""`, which has no lines. */
  lemma MissingContentGivesNothing(original: string, model: seq<Message> -> Reply)
    requires model(UserTurn(Request(original))) == Record(Absent)
    ensures Fix(original, model) == Ok([])
  {
    assert SplitLines("") == [];
  }

  /** The two comprehensions of `fix` act as one: a line survives exactly
      when it is a bullet line whose cleaned form mentions a keyword. */
  lemma SelectFiltersOnce(keywords: seq<string>, lines: seq<string>)
    ensures FirstTwo(KeepMentioning(ExtractBullets(lines), keywords)) == Select(keywords, lines)
  {
    forall m | 0 <= m < |lines|
      ensures PassesFor(keywords)(lines[m]) ==
                (IsBulletLine(lines[m]) && Mentions(keywords)(CleanBullet(lines[m])))
      ensures CleanBullet(lines[m]) == Id(CleanBullet(lines[m]))
    {
    }
    ComprehensionFuse(lines, IsBulletLine, CleanBullet, Mentions(keywords), Id,
                      PassesFor(keywords), CleanBullet);
  }

  /** Filtering line by line: the passing bullets of two blocks of lines are
      those of the first block followed by those of the second. */
  lemma PassingAppend(keywords: seq<string>, xs: seq<string>, ys: seq<string>)
    ensures Passing(keywords, xs + ys) == Passing(keywords, xs) + Passing(keywords, ys)
  {
    ComprehensionAppend(xs, ys, PassesFor(keywords), CleanBullet);
  }

  /** `fix` returns two bullets when at least two lines pass, otherwise as
      many as pass. */
  lemma SelectCount(keywords: seq<string>, lines: seq<string>)
    ensures |Select(keywords, lines)| ==
            if Count(lines, PassesFor(keywords)) >= 2 then 2 else Count(lines, PassesFor(keywords))
  {
    ComprehensionLength(lines, PassesFor(keywords), CleanBullet);
  }

  /** When lines `i` and `j` are the first two passing lines of the reply,
      `fix` returns exactly their cleaned forms, in that order. */
  lemma SelectFirstTwo(keywords: seq<string>, lines: seq<string>, i: nat, j: nat)
    requires i < j < |lines|
    requires Passes(keywords, lines[i]) && Passes(keywords, lines[j])
    requires forall m :: 0 <= m < j && m != i ==> !Passes(keywords, lines[m])
    ensures Select(keywords, lines) == [CleanBullet(lines[i]), CleanBullet(lines[j])]
  {
    var keep := PassesFor(keywords);
    var ci, cj := CleanBullet(lines[i]), CleanBullet(lines[j]);
    assert keep(lines[i]) && keep(lines[j]);
    assert forall m :: 0 <= m < j && m != i ==> !keep(lines[m]);
    ComprehensionFirstTwo(lines, keep, CleanBullet, i, j);
    var p := Passing(keywords, lines);
    assert p[..2] == [ci, cj];
  }

  /** When exactly one line passes, `fix` returns its cleaned form alone. */
  lemma SelectOnlyOne(keywords: seq<string>, lines: seq<string>, i: nat)
    requires i < |lines| && Passes(keywords, lines[i])
    requires forall m :: 0 <= m < |lines| && m != i ==> !Passes(keywords, lines[m])
    ensures Select(keywords, lines) == [CleanBullet(lines[i])]
  {
    assert Passing(keywords, lines) == [CleanBullet(lines[i])] by {
      var keep := PassesFor(keywords);
      forall m | 0 <= m < |lines| ensures keep(lines[m]) == Passes(keywords, lines[m]) {
      }
      ComprehensionOnlyOne(lines, keep, CleanBullet, i);
    }
  }

  /** A line that is not a bullet line contributes nothing, wherever it
      stands in the reply. */
  lemma NonBulletLineIgnored(keywords: seq<string>, xs: seq<string>, ln: string, ys: seq<string>)
    requires !IsBulletLine(ln)
    ensures Select(keywords, xs + [ln] + ys) == Select(keywords, xs + ys)
  {
    assert Passing(keywords, xs + [ln] + ys) == Passing(keywords, xs + ys) by {
      var keep := PassesFor(keywords);
      assert !keep(ln);
      ComprehensionAppend(xs + [ln], ys, keep, CleanBullet);
      ComprehensionAppend(xs, [ln], keep, CleanBullet);
      ComprehensionAppend(xs, ys, keep, CleanBullet);
      ComprehensionOne(ln, keep, CleanBullet);
    }
  }

  /** The result is an order-preserving subsequence of the reply's bullets. */
  lemma SelectIsSubsequence(keywords: seq<string>, lines: seq<string>)
    ensures IsSubsequence(Select(keywords, lines), ExtractBullets(lines))
  {
    var bullets := ExtractBullets(lines);
    var p := KeepMentioning(bullets, keywords);
    FilterIsSubsequence(bullets, Mentions(keywords));
    SelectFiltersOnce(keywords, lines);
    if |p| > 2 {
      PrefixIsSubsequence(p, bullets, 2);
    }
  }

  /** Every returned string is the cleaned form of a bullet line of the reply
      that mentions a keyword. */
  lemma SelectComesFromPassingLines(keywords: seq<string>, lines: seq<string>, b: string)
    requires b in Select(keywords, lines)
    ensures exists m :: 0 <= m < |lines| && IsBulletLine(lines[m])
                        && CleanBullet(lines[m]) == b
                        && MentionsKeyword(b, keywords)
  {
    var p := Passing(keywords, lines);
    if |p| > 2 {
      assert b in p;
    }
    ComprehensionMember(lines, PassesFor(keywords), CleanBullet, b);
    var m :| 0 <= m < |lines| && PassesFor(keywords)(lines[m]) && CleanBullet(lines[m]) == b;
    assert Passes(keywords, lines[m]);
  }

  /** Every returned string is trimmed, at least four characters long, and
      holds, lower-cased, a lower-cased maximal run of four or more ASCII
      letters of the prompt. */
  lemma SelectMentionsPromptRun(original: string, lines: seq<string>, b: string)
    requires b in Select(Keywords(original), lines)
    ensures Trimmed(b) && |b| >= 4
    ensures exists a, e :: MaximalRun(original, a, e) && Contains(Lower(b), Lower(original[a..e]))
  {
    SelectComesFromPassingLines(Keywords(original), lines, b);
    var k :| k in Keywords(original) && Contains(Lower(b), k);
    KeywordsAreMaximalRuns(original, k);
    KeywordsAreLong(original, k);
    ContainsNeedsLength(Lower(b), k);
  }

  /** A prompt without four consecutive ASCII letters has no keywords. */
  lemma NoLongWordNoKeywords(original: string)
    requires forall m :: 0 <= m && m + 4 <= |original| ==>
               !(IsAsciiLetter(original[m]) && IsAsciiLetter(original[m + 1])
                 && IsAsciiLetter(original[m + 2]) && IsAsciiLetter(original[m + 3]))
    ensures Keywords(original) == []
  {
    forall a, e ensures !MaximalRun(original, a, e) {
      if 0 <= a && a + 4 <= |original| {
        assert !(IsAsciiLetter(original[a]) && IsAsciiLetter(original[a + 1])
                 && IsAsciiLetter(original[a + 2]) && IsAsciiLetter(original[a + 3]));
      }
    }
    var runs := RunsFrom(original, 0);
    if runs != [] {
      var w := runs[0];
      assert w in runs;
      RunsFromSound(original, 0);
      assert false;
    }
  }

  /** Without keywords `fix` returns nothing, whatever the reply. */
  lemma NoLongWordNoBullets(original: string, txt: string)
    requires forall m :: 0 <= m && m + 4 <= |original| ==>
               !(IsAsciiLetter(original[m]) && IsAsciiLetter(original[m + 1])
                 && IsAsciiLetter(original[m + 2]) && IsAsciiLetter(original[m + 3]))
    ensures FixText(original, txt) == []
  {
    NoLongWordNoKeywords(original);
    var bullets := ExtractBullets(SplitLines(txt));
    forall m | 0 <= m < |bullets| ensures !Mentions([])(bullets[m]) {
    }
    ComprehensionNone(bullets, Mentions([]), Id);
  }

  /** `lstrip("•- ")` stops at a tab, so a tab before the marker leaves the
      marker in the returned bullet. */
  lemma TabBeforeMarkerKeepsIt()
    ensures IsBulletLine("\t- item")
    ensures CleanBullet("\t- item") == "- item"
  {
    var ln := "\t- item";
    assert ln[1..] == "- item";
    assert !IsSpace('-');
    assert LStrip("- item") == "- item";
    assert LStrip(ln) == "- item";
    assert '\t' !in Markers;
    assert LStripChars(ln, Markers) == ln;
    assert RStrip("- item") == "- item";
  }
}
