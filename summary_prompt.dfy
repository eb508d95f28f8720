/**
 * The pure string parts of the summary pipeline (src/serverActions/generateSummary.ts):
 * the prompt template sent to the model, and the fence escaping that keeps the
 * diff's own triple-backtick fences apart from those of the model's answer.
 */
module SummaryPrompt {
  import opened Wrappers
  import opened Text

  /** A Markdown code fence. */
  const Fence: string := "```"
  /** A fence one backtick wider, which an inner triple fence cannot close. */
  const WideFence: string := "````"
  /** The token that stands for a fence of the diff while the model sees it. */
  const Placeholder: string := "<diff-buddy-code-block>"

  /** The instructions of the prompt, up to and including its example diff block. */
  const Instructions: string := @"Turn the following PR into a ""blog post"" using markdown. Group related sections of the diff using section headings, display them in codeblocks, and give short explanations of what's going on. You do not need to limit yourself to only 1 diff/codeblock per heading â€” you can include multiple codeblocks per section as needed. Focus on the changes that matter most for understanding behavior; you may omit noisy or low-value changes.

Include a summary of the PR at the top.
Avoid emojis.

For each displayed diff, it needs to be in proper diff format, including all headers and syntax. Make sure each codeblock is an individual syntactically valid diff that can be parsed. Each diff codeblock should only include changes from a single file.

**Grouping and Structure:**
- Group related changes thematically (e.g., by feature, concern, or behavior change) rather than by file.
- Only create section headings for substantial changes or groups of 3+ related modifications.
- Small, isolated changes should be grouped in a ""Miscellaneous changes"" section at the end.
- Avoid one-section-per-file summaries. Prefer cross-file grouping when changes relate to the same feature or behavior.
- Do not output entire files. Use focused hunks that illustrate the key changes.
- Every section must include a short narrative before each diff codeblock (1-2 sentences), not just before the section overall.
- Do not place diff codeblocks back-to-back without commentary between them.

**Explanations:**
- For each section, provide 1-2 sentences explaining the motivation or context before showing the diffs.
- Focus explanations on *why* and *what behavior changed*, not just the syntax.

**Reviewer Focus:**
- Always include at least one diff hunk that shows the core implementation for each newly added or substantially modified feature (e.g., component logic, state/props usage, event handling, data flow, or rendering).
- Avoid showing only type/prop/interface changes without any corresponding behavioral or rendering code.
- If a new file is added, include a representative hunk from its implementation unless the file is trivial.
- Prefer multiple small hunks over a single large one; keep each hunk tight and only include necessary context.

**Special Cases:**
- If there are any breaking changes or API modifications, highlight these clearly.

Example:
```diff
diff --git a/app/components/ui/richTextSuggestionOptions.ts b/app/components/ui/richTextSuggestionOptions.ts
index 0fd06dd2d..4f60cf74b 100644
--- a/app/components/ui/richTextSuggestionOptions.ts
+++ b/app/components/ui/richTextSuggestionOptions.ts
@@ -33,45 +33,222 @@ const DOM_RECT_FALLBACK: DOMRect = {
   },
 };
 
+/**
+ * Event types for coordinating between the items fetcher and render lifecycle
+ */
+type SuggestionEvent =
+  | { type: 'LOADING_STARTED'; query: string }
+  | { type: 'LOADING_COMPLETED' }
+  | { type: 'FETCH_ABORTED' };
```"

  /** What separates the instructions from the diff. */
  const DiffHeading: string := "\n\nDiff:\n"

  /** Everything the prompt holds before the diff. */
  const PromptPrefix: string := Instructions + DiffHeading

  /** `getPrompt(diff)`: the template with the diff filled in at its end. */
  function GetPrompt(diff: string): string
  {
    PromptPrefix + diff
  }

  /** Reads the diff back out of a prompt; `None` when `p` is not a prompt. */
  function PromptDiff(p: string): (r: Option<string>)
    ensures r.Some? <==> StartsWith(p, PromptPrefix)
    ensures r.Some? ==> p == PromptPrefix + r.value
  {
    if StartsWith(p, PromptPrefix) then Some(p[|PromptPrefix|..]) else None
  }

  /** The prompt ends with the diff, after a fixed prefix that ends with the heading. */
  lemma PromptShape(diff: string)
    ensures StartsWith(GetPrompt(diff), PromptPrefix)
    ensures GetPrompt(diff)[|PromptPrefix| - |DiffHeading|..] == DiffHeading + diff
    ensures |GetPrompt(diff)| == |PromptPrefix| + |diff|
  {
    assert GetPrompt(diff)[..|PromptPrefix|] == PromptPrefix;
    assert GetPrompt(diff) == Instructions + (DiffHeading + diff);
  }

  /** Different diffs give different prompts: the diff can be read back. */
  lemma PromptRoundTrip(diff: string)
    ensures PromptDiff(GetPrompt(diff)) == Some(diff)
  {
    PromptShape(diff);
    assert GetPrompt(diff)[|PromptPrefix|..] == diff;
  }

  /** The diff as the model sees it: every fence replaced by the placeholder. */
  function Escape(diff: string): string
  {
    ReplaceAll(diff, Fence, Placeholder)
  }

  /** Every fence made one backtick wider. */
  function Widen(text: string): string
  {
    ReplaceAll(text, Fence, WideFence)
  }

  /** Every wide fence made a plain fence again. */
  function Narrow(text: string): string
  {
    ReplaceAll(text, WideFence, Fence)
  }

  /** The model's answer as stored: its fences widened, then every placeholder a fence again. */
  function Unescape(text: string): string
  {
    ReplaceAll(Widen(text), Placeholder, Fence)
  }

  /**
   * Replacing fences by a non-empty text without backticks leaves no fence:
   * a fence in the output would have to straddle a replaced one.
   */
  lemma {:induction false} ReplacedFencesAreGone(s: string, rep: string)
    requires rep != [] && '`' !in rep
    ensures !HasInfix(ReplaceAll(s, Fence, rep), Fence)
    decreases |s|
  {
    var r := ReplaceAll(s, Fence, rep);
    if |s| < |Fence| {
      ShortHasNoInfix(s, Fence);
    } else if StartsWith(s, Fence) {
      ReplacedFencesAreGone(s[3..], rep);
      HasInfixAfterAvoiding(rep, ReplaceAll(s[3..], Fence, rep), Fence);
    } else {
      var c, rest := s[0], s[1..];
      var y := ReplaceAll(rest, Fence, rep);
      ReplaceAllCons(s, Fence, rep);
      ReplacedFencesAreGone(rest, rep);
      HasInfixCons(c, y, Fence);
      StartsWithCons(c, y, Fence);
      StartsWithCons(y[0], y[1..], Fence[1..]) by { ReplaceAllFirst(rest, Fence, rep); }
      if c == '`' && |y| >= 2 && y[0] == '`' {
        // the backtick that opens `y` is the input's own
        ReplaceAllFirst(rest, Fence, rep);
        ReplaceAllCons(rest, Fence, rep);
        ReplaceAllFirst(rest[1..], Fence, rep);
        assert s[..3] == [s[0], s[1], s[2]];
        assert y[1] != '`';
      }
      assert !StartsWith([c] + y, Fence);
    }
  }

  /** The escaped diff holds no fence. */
  lemma EscapeRemovesFences(diff: string)
    ensures !HasInfix(Escape(diff), Fence)
  {
    ReplacedFencesAreGone(diff, Placeholder);
  }

  /** Turning placeholders back into fences undoes the escape of a diff without placeholders. */
  lemma {:induction false} PlaceholdersRestoreFences(d: string)
    requires !HasInfix(d, Placeholder)
    ensures ReplaceAll(Escape(d), Placeholder, Fence) == d
    decreases |d|
  {
    if |d| < |Fence| {
      ShortHasNoInfix(d, Fence);
      ShortHasNoInfix(d, Placeholder);
    } else if StartsWith(d, Fence) {
      SuffixHasInfix(d, 3, Placeholder);
      PlaceholdersRestoreFences(d[3..]);
      ReplaceAllLead(Escape(d[3..]), Placeholder, Fence);
      assert d == Fence + d[3..];
    } else {
      var c, rest := d[0], d[1..];
      var y := Escape(rest);
      ReplaceAllCons(d, Fence, Placeholder);
      assert Escape(d) == [c] + y;
      SuffixHasInfix(d, 1, Placeholder);
      PlaceholdersRestoreFences(rest);
      StartsWithCons(c, y, Placeholder);
      ReplaceAllKeepsPrefix(rest, Fence, Placeholder, Placeholder[1..]);
      StartsWithCons(c, rest, Placeholder);
      assert d == [c] + rest;
      assert !StartsWith([c] + y, Placeholder);
      ReplaceAllCons([c] + y, Placeholder, Fence);
      assert ([c] + y)[1..] == y;
    }
  }

  /**
   * Round trip: when the model echoes the escaped diff, unescaping gives the
   * diff back, provided the diff held no placeholder of its own.
   */
  lemma EscapeRoundTrip(diff: string)
    requires !HasInfix(diff, Placeholder)
    ensures Unescape(Escape(diff)) == diff
  {
    EscapeRemovesFences(diff);
    PlaceholdersRestoreFences(diff);
  }

  /** The proviso is needed: a diff holding the placeholder comes back with a fence. */
  lemma EscapeRoundTripNeedsNoPlaceholder()
    ensures Unescape(Escape(Placeholder)) == Fence != Placeholder
  {
    ReplaceAllLead([], Fence, Placeholder);
    assert Placeholder + [] == Placeholder;
    ReplaceAllLead([], Placeholder, Fence);
    assert Fence + [] == Fence;
    ShortHasNoInfix([], Fence);
    HasInfixAfterAvoiding(Placeholder, [], Fence);
  }

  /** Narrowing undoes widening: the model's own fences are recovered exactly. */
  lemma {:induction false} NarrowWiden(t: string)
    ensures Narrow(Widen(t)) == t
    decreases |t|
  {
    if |t| < |Fence| {
      ShortHasNoInfix(t, Fence);
      ShortHasNoInfix(t, WideFence);
    } else if StartsWith(t, Fence) {
      assert t == Fence + t[3..];
      ReplaceAllLead(t[3..], Fence, WideFence);
      ReplaceAllLead(Widen(t[3..]), WideFence, Fence);
      NarrowWiden(t[3..]);
    } else {
      var c, rest := t[0], t[1..];
      var y := Widen(rest);
      ReplaceAllCons(t, Fence, WideFence);
      assert Widen(t) == [c] + y;
      NarrowWiden(rest);
      StartsWithCons(c, y, WideFence);
      ReplaceAllFirst(rest, Fence, WideFence);
      if c == '`' && |y| >= 3 && y[0] == '`' {
        // `rest` opens with a backtick that is not a fence, so `y` keeps it alone
        assert t[..3] == [t[0], t[1], t[2]];
        assert !StartsWith(rest, Fence);
        ReplaceAllCons(rest, Fence, WideFence);
        ReplaceAllFirst(rest[1..], Fence, WideFence);
        assert y[1] != '`';
      }
      StartsWithCons(y[0], y[1..], WideFence[1..]) by { ReplaceAllFirst(rest, Fence, WideFence); }
      assert !StartsWith([c] + y, WideFence);
      ReplaceAllCons([c] + y, WideFence, Fence);
      assert ([c] + y)[1..] == y;
    }
  }

  /** Widening cannot create a placeholder: it only adds backticks. */
  lemma {:induction false} WidenKeepsPlaceholdersOut(t: string)
    requires !HasInfix(t, Placeholder)
    ensures !HasInfix(Widen(t), Placeholder)
    decreases |t|
  {
    if |t| < |Fence| {
      ShortHasNoInfix(t, Fence);
    } else if StartsWith(t, Fence) {
      SuffixHasInfix(t, 3, Placeholder);
      WidenKeepsPlaceholdersOut(t[3..]);
      HasInfixAfterAvoiding(WideFence, Widen(t[3..]), Placeholder);
    } else {
      var c, rest := t[0], t[1..];
      var y := Widen(rest);
      ReplaceAllCons(t, Fence, WideFence);
      SuffixHasInfix(t, 1, Placeholder);
      WidenKeepsPlaceholdersOut(rest);
      HasInfixCons(c, y, Placeholder);
      StartsWithCons(c, y, Placeholder);
      ReplaceAllKeepsPrefix(rest, Fence, WideFence, Placeholder[1..]);
      StartsWithCons(c, rest, Placeholder);
      assert t == [c] + rest;
    }
  }

  /**
   * On a model answer without placeholders, unescaping only widens its fences,
   * so narrowing the stored summary gives the model's answer byte for byte.
   */
  lemma UnescapeWidensFences(text: string)
    requires !HasInfix(text, Placeholder)
    ensures Unescape(text) == Widen(text)
    ensures Narrow(Unescape(text)) == text
  {
    WidenKeepsPlaceholdersOut(text);
    NarrowWiden(text);
  }

  /** The diff section of the prompt the model receives holds no fence. */
  lemma PromptDiffHasNoFence(diff: string)
    ensures PromptDiff(GetPrompt(Escape(diff))) == Some(Escape(diff))
    ensures !HasInfix(Escape(diff), Fence)
  {
    PromptRoundTrip(Escape(diff));
    EscapeRemovesFences(diff);
  }
}
