/**
 * The helpers the pull-request components share: `getAuthorInitials` and
 * `getStateBadge`, written out the same way in src/components/PRListItem.tsx,
 * src/components/PRHeader.tsx and (the initials) src/components/PRSidebar.tsx.
 */
module PullRequestView {
  import opened Wrappers
  import opened Words

  /**
   * `.map((n) => n[0]).join("")`: the first character of each piece. An
   * empty piece gives `undefined`, which `join` writes as nothing.
   */
  function Firsts(ws: seq<string>): string
    decreases |ws|
  {
    if ws == [] then ""
    else (if ws[0] == "" then "" else [ws[0][0]]) + Firsts(ws[1..])
  }

  /**
   * The characters of `s` that start a word: not a space, and first in `s`
   * or right after a space (`afterSpace` says whether the character before
   * `s` was a space, or there was none).
   */
  function WordStarts(s: string, afterSpace: bool): (r: string)
    ensures |r| <= |s|
    decreases |s|
  {
    if s == [] then ""
    else (if s[0] != ' ' && afterSpace then [s[0]] else "") + WordStarts(s[1..], s[0] == ' ')
  }

  /** `getAuthorInitials(name)`. */
  function AuthorInitials(name: string): (r: string)
    ensures |r| <= 2
    ensures forall i :: 0 <= i < |r| ==> !('a' <= r[i] <= 'z')
  {
    Take(Upper(Firsts(Split(name))), 2)
  }

  lemma FirstsAppend(a: seq<string>, b: seq<string>)
    ensures Firsts(a + b) == Firsts(a) + Firsts(b)
    decreases |a|
  {
    if a == [] {
      assert a + b == b;
    } else {
      assert (a + b)[0] == a[0] && (a + b)[1..] == a[1..] + b;
      FirstsAppend(a[1..], b);
    }
  }

  /**
   * The first characters of the pieces of `split(" ")` are the word starts;
   * the pieces after the first give the word starts after the first character.
   */
  lemma {:induction false} FirstsOfSplit(s: string)
    ensures Firsts(Split(s)) == WordStarts(s, true)
    ensures Firsts(Split(s)[1..]) == WordStarts(s, false)
    decreases |s|
  {
    if s != [] {
      FirstsOfSplit(s[1..]);
      var rest := Split(s[1..]);
      if s[0] == ' ' {
        assert Split(s) == [""] + rest;
        FirstsAppend([""], rest);
        assert Split(s)[1..] == rest;
      } else {
        var w := [s[0]] + rest[0];
        assert Split(s) == [w] + rest[1..];
        FirstsAppend([w], rest[1..]);
        assert Split(s)[1..] == rest[1..];
        assert rest == [rest[0]] + rest[1..];
        FirstsAppend([rest[0]], rest[1..]);
      }
    }
  }

  /**
   * The initials are the first two word starts of `name`, in order and
   * upper-cased.
   */
  lemma InitialsAreWordStarts(name: string)
    ensures AuthorInitials(name) == Take(Upper(WordStarts(name, true)), 2)
    ensures |AuthorInitials(name)| == if |WordStarts(name, true)| < 2 then |WordStarts(name, true)| else 2
  {
    FirstsOfSplit(name);
  }

  /** The badges a pull request can show. */
  datatype Badge = Open | Merged | Closed

  /** `getStateBadge()`: by `state`, and `merged_at` (a string or `null`) when closed. */
  function StateBadge(state: string, mergedAt: Option<string>): (b: Option<Badge>)
    ensures b == Some(Open) <==> state == "open"
    ensures b == Some(Merged) <==> state == "closed" && Truthy(mergedAt)
    ensures b == Some(Closed) <==> state == "closed" && !Truthy(mergedAt)
    ensures b.None? <==> state != "open" && state != "closed"
  {
    if state == "open" then Some(Open)
    else if state == "closed" then (if Truthy(mergedAt) then Some(Merged) else Some(Closed))
    else None
  }
}
