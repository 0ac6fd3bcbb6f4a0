/** The regular-expression matcher of grep (user/grep.c). */
module Grep {

  /** One character, or any number of them; `p` may be '.', which stands for any. */
  datatype Item = One(p: char) | Many(p: char)

  predicate Accepts(p: char, c: char) {
    p == '.' || p == c
  }

  // ---- what a pattern means ----

  /** The items of a pattern without its leading `^`. */
  function Items(re: string): seq<Item>
    decreases |re|
  {
    if re == "" || re == "$" then []
    else if 2 <= |re| && re[1] == '*' then [Many(re[0])] + Items(re[2..])
    else [One(re[0])] + Items(re[1..])
  }

  /** Does the pattern end in a `$` that stands for the end of the text? */
  predicate AtEnd(re: string)
    decreases |re|
  {
    if re == "" then false
    else if re == "$" then true
    else if 2 <= |re| && re[1] == '*' then AtEnd(re[2..])
    else AtEnd(re[1..])
  }

  /** w begins with k characters that p accepts. */
  predicate AllAccepted(p: char, w: string, k: nat) {
    k <= |w| && forall i :: 0 <= i < k ==> Accepts(p, w[i])
  }

  /** w lies in the language of the items. */
  ghost predicate InLanguage(items: seq<Item>, w: string)
    decreases |items|
  {
    if items == [] then w == ""
    else match items[0]
      case One(p) => w != "" && Accepts(p, w[0]) && InLanguage(items[1..], w[1..])
      case Many(p) => exists k: nat {:trigger AllAccepted(p, w, k)} :: AllAccepted(p, w, k) && InLanguage(items[1..], w[k..])
  }

  /** A prefix of the text, of length j, is in the language of the pattern. */
  ghost predicate Prefix(re: string, text: string, j: nat) {
    j <= |text| && InLanguage(Items(re), text[..j]) && (AtEnd(re) ==> j == |text|)
  }

  ghost predicate Begins(re: string, text: string) {
    exists j: nat :: Prefix(re, text, j)
  }

  ghost predicate Found(re: string, text: string, i: nat, j: nat) {
    i <= |text| && Prefix(re, text[i..], j)
  }

  /** Some substring of the text, from its start if the pattern begins with `^` and up to its
      end if it ends in `$`, lies in the language of the pattern. */
  ghost predicate Occurs(re: string, text: string) {
    if re != "" && re[0] == '^' then exists j: nat :: Found(re[1..], text, 0, j)
    else exists i: nat, j: nat :: Found(re, text, i, j)
  }

  // ---- one step of the pattern ----

  lemma BeginsOne(re: string, text: string)
    requires re != "" && re != "$" && !(2 <= |re| && re[1] == '*')
    ensures Begins(re, text) <==> text != "" && Accepts(re[0], text[0]) && Begins(re[1..], text[1..])
  {
    assert Items(re)[1..] == Items(re[1..]);
    forall j: nat | Prefix(re, text, j) ensures text != "" && Accepts(re[0], text[0]) && Prefix(re[1..], text[1..], j - 1) {
      assert text[..j][1..] == text[1..][..j - 1];
    }
    if text != "" && Accepts(re[0], text[0]) && Begins(re[1..], text[1..]) {
      var j: nat :| Prefix(re[1..], text[1..], j);
      assert text[..j + 1][1..] == text[1..][..j];
      assert Prefix(re, text, j + 1);
    }
  }

  lemma BeginsMany(re: string, text: string)
    requires 2 <= |re| && re[1] == '*'
    ensures Begins(re, text) <==> exists k: nat {:trigger AllAccepted(re[0], text, k)} :: AllAccepted(re[0], text, k) && Begins(re[2..], text[k..])
  {
    assert Items(re)[1..] == Items(re[2..]);
    if Begins(re, text) {
      var j: nat :| Prefix(re, text, j);
      var k: nat :| AllAccepted(re[0], text[..j], k) && InLanguage(Items(re[2..]), text[..j][k..]);
      assert text[..j][k..] == text[k..][..j - k];
      assert AllAccepted(re[0], text, k) && Prefix(re[2..], text[k..], j - k);
    }
    forall k: nat | AllAccepted(re[0], text, k) && Begins(re[2..], text[k..]) ensures Begins(re, text) {
      var j: nat :| Prefix(re[2..], text[k..], j);
      assert text[..k + j][k..] == text[k..][..j];
      assert AllAccepted(re[0], text[..k + j], k);
      assert Prefix(re, text, k + j);
    }
  }

  // ---- the matcher ----

  /** `matchhere`: the pattern matches at the beginning of the text. */
  method MatchHere(re: string, text: string) returns (r: bool)
    ensures r <==> Begins(re, text)
    decreases |re|, 0
  {
    if re == "" {
      assert Prefix(re, text, 0);
      return true;
    }
    if 2 <= |re| && re[1] == '*' {
      BeginsMany(re, text);
      r := MatchStar(re[0], re[2..], text);
      return;
    }
    if re == "$" {
      assert text == "" ==> Prefix(re, text, 0);
      return text == "";
    }
    BeginsOne(re, text);
    if text != "" && (re[0] == '.' || re[0] == text[0]) {
      r := MatchHere(re[1..], text[1..]);
      return;
    }
    return false;
  }

  /** `matchstar`: any number of c, and then the pattern. */
  method MatchStar(c: char, re: string, text: string) returns (r: bool)
    ensures r <==> exists k: nat {:trigger AllAccepted(c, text, k)} :: AllAccepted(c, text, k) && Begins(re, text[k..])
    decreases |re|, 1
  {
    var i := 0;
    while true
      invariant AllAccepted(c, text, i)
      invariant forall k: nat {:trigger text[k..]} :: k < i ==> !Begins(re, text[k..])
      decreases |text| - i
    {
      r := MatchHere(re, text[i..]);
      if r {
        return;
      }
      if !(i < |text| && (text[i] == c || c == '.')) {
        break;
      }
      i := i + 1;
    }
    forall k: nat | AllAccepted(c, text, k) ensures !Begins(re, text[k..]) {
      NoFurther(c, text, i, k);
    }
  }

  lemma NoFurther(c: char, text: string, i: nat, k: nat)
    requires AllAccepted(c, text, k) && (i < |text| ==> !Accepts(c, text[i]))
    ensures k <= i
  {
  }

  /** `match`: the pattern matches somewhere. */
  method Match(re: string, text: string) returns (r: bool)
    ensures r <==> Occurs(re, text)
  {
    if re != "" && re[0] == '^' {
      r := MatchHere(re[1..], text);
      Anchored(re[1..], text, 0);
      assert text[0..] == text;
      return;
    }
    var i := 0;
    while true
      invariant 0 <= i <= |text|
      invariant forall k: nat, j: nat {:trigger Found(re, text, k, j)} :: k < i ==> !Found(re, text, k, j)
      decreases |text| - i
    {
      r := MatchHere(re, text[i..]);
      Anchored(re, text, i);
      if r {
        return;
      }
      if i == |text| {
        break;
      }
      i := i + 1;
    }
  }

  lemma Anchored(re: string, text: string, i: nat)
    requires i <= |text|
    ensures Begins(re, text[i..]) <==> exists j: nat :: Found(re, text, i, j)
  {
    forall j: nat ensures Prefix(re, text[i..], j) == Found(re, text, i, j) {
    }
  }
}
