/**
 * JavaScript string calls the UI helpers make: `split(" ")`, `join(" ")`,
 * `toUpperCase()` on ASCII text and `slice(0, n)`.
 */
module Words {

  /** `s.split(" ")`: the pieces between single spaces, empty pieces included. */
  function Split(s: string): (ws: seq<string>)
    ensures |ws| >= 1
    ensures forall i :: 0 <= i < |ws| ==> ' ' !in ws[i]
    decreases |s|
  {
    if s == [] then [""]
    else if s[0] == ' ' then [""] + Split(s[1..])
    else
      var rest := Split(s[1..]);
      [[s[0]] + rest[0]] + rest[1..]
  }

  /** `ws.join(" ")`. */
  function Join(ws: seq<string>): string
    requires |ws| >= 1
    decreases |ws|
  {
    if |ws| == 1 then ws[0] else ws[0] + " " + Join(ws[1..])
  }

  /** Joining the pieces gives the string back. */
  lemma {:induction false} JoinSplit(s: string)
    ensures Join(Split(s)) == s
    decreases |s|
  {
    if s != [] {
      JoinSplit(s[1..]);
      var rest := Split(s[1..]);
      if s[0] == ' ' {
        assert ([""] + rest)[1..] == rest;
        assert s == " " + s[1..];
      } else {
        var ws := [[s[0]] + rest[0]] + rest[1..];
        if |rest| == 1 {
          assert s == [s[0]] + s[1..];
        } else {
          assert ws[1..] == rest[1..];
          assert Join(rest) == rest[0] + " " + Join(rest[1..]);
          assert s == [s[0]] + s[1..];
        }
      }
    }
  }

  /** Splitting a join of space-free pieces gives the pieces back. */
  lemma {:induction false} SplitJoin(ws: seq<string>)
    requires |ws| >= 1
    requires forall i :: 0 <= i < |ws| ==> ' ' !in ws[i]
    ensures Split(Join(ws)) == ws
    decreases |ws|, |ws[0]|
  {
    if |ws| == 1 {
      SplitWord(ws[0]);
    } else if ws[0] == "" {
      assert Join(ws) == " " + Join(ws[1..]);
      SplitJoin(ws[1..]);
      assert Split(Join(ws)) == [""] + ws[1..];
    } else {
      var w := ws[0];
      var ws' := [w[1..]] + ws[1..];
      assert ws'[1..] == ws[1..];
      assert Join(ws) == [w[0]] + Join(ws');
      SplitJoin(ws');
      assert w == [w[0]] + w[1..];
      assert ws == [[w[0]] + ws'[0]] + ws'[1..];
      assert ([w[0]] + Join(ws'))[1..] == Join(ws');
    }
  }

  /** A piece with no space splits into itself. */
  lemma {:induction false} SplitWord(w: string)
    requires ' ' !in w
    ensures Split(w) == [w]
    decreases |w|
  {
    if w != [] {
      SplitWord(w[1..]);
      assert w == [w[0]] + w[1..];
    }
  }

  /** `toUpperCase()` of one ASCII character; other characters are left alone. */
  function UpperChar(ch: char): (u: char)
    ensures !('a' <= u <= 'z')
    ensures 'a' <= ch <= 'z' ==> u as int == ch as int - 32
    ensures !('a' <= ch <= 'z') ==> u == ch
  {
    if 'a' <= ch <= 'z' then (ch as int - 32) as char else ch
  }

  function Upper(s: string): (u: string)
    ensures |u| == |s|
    ensures forall i :: 0 <= i < |s| ==> u[i] == UpperChar(s[i])
  {
    seq(|s|, i requires 0 <= i < |s| => UpperChar(s[i]))
  }

  /** `s.slice(0, n)`. */
  function Take(s: string, n: nat): (t: string)
    ensures |t| <= n && |t| <= |s|
    ensures t == s[..|t|]
    ensures |s| >= n ==> |t| == n
  {
    if |s| <= n then s else s[..n]
  }
}
