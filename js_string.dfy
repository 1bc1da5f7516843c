/**
 * The part of JavaScript's `String.prototype.replace` that the build handler
 * relies on: finding the leftmost occurrence of a pattern and expanding the
 * replacement string, in which `$` introduces a substitution pattern.
 */
module JsString {
  import opened Wrappers

  /** `pat` occurs in `s` starting at index `i`. */
  predicate OccursAt(s: string, pat: string, i: nat) {
    i + |pat| <= |s| && s[i..i + |pat|] == pat
  }

  /** The leftmost index at or after `from` where `pat` occurs in `s`. */
  function FirstOccurrence(s: string, pat: string, from: nat): (r: Option<nat>)
    ensures r.Some? ==> from <= r.value && OccursAt(s, pat, r.value)
    ensures r.Some? ==> forall k: nat :: from <= k < r.value ==> !OccursAt(s, pat, k)
    ensures r.None? ==> forall k: nat :: from <= k ==> !OccursAt(s, pat, k)
    decreases |s| - from
  {
    if |s| < from + |pat| then None
    else if OccursAt(s, pat, from) then Some(from)
    else FirstOccurrence(s, pat, from + 1)
  }

  /**
   * The text that the replacement string `template` stands for, as the
   * GetSubstitution step of ECMAScript computes it for a pattern without
   * capture groups: `$$` is one `$`, `$&` the matched text, `$`` the text
   * before the match and `$'` the text after it. Any other `$` (including
   * `$1` and `$<`, since there are no groups) is copied literally.
   */
  function Substitute(template: string, matched: string, before: string, after: string): string
    decreases |template|
  {
    if |template| == 0 then ""
    else if template[0] == '$' && |template| >= 2 && template[1] in "$&`'" then
      var piece := match template[1]
        case '$' => "$"
        case '&' => matched
        case '`' => before
        case _ => after;
      piece + Substitute(template[2..], matched, before, after)
    else
      [template[0]] + Substitute(template[1..], matched, before, after)
  }

  /** A replacement string without `$` is inserted as it is. */
  lemma {:induction false} SubstituteLiteral(template: string, matched: string, before: string, after: string)
    requires '$' !in template
    ensures Substitute(template, matched, before, after) == template
    decreases |template|
  {
    if |template| > 0 {
      assert '$' !in template[1..] by {
        forall k | 0 <= k < |template[1..]| ensures template[1..][k] != '$' {
          assert template[1..][k] == template[k + 1];
        }
      }
      SubstituteLiteral(template[1..], matched, before, after);
      assert template == [template[0]] + template[1..];
    }
  }

  /**
   * `s.replace(pat, template)` with a string pattern: only the leftmost
   * occurrence of `pat` is replaced, and without one `s` is returned as it is.
   */
  function ReplaceFirst(s: string, pat: string, template: string): string {
    match FirstOccurrence(s, pat, 0)
    case None => s
    case Some(i) =>
      s[..i] + Substitute(template, pat, s[..i], s[i + |pat|..]) + s[i + |pat|..]
  }

  /**
   * With no `$` in the replacement, exactly the leftmost occurrence of `pat`
   * becomes `template`; the text before it and after it (later occurrences
   * included) is kept.
   */
  lemma ReplaceFirstLiteral(s: string, pat: string, template: string, i: nat)
    requires '$' !in template
    requires OccursAt(s, pat, i) && forall k: nat :: k < i ==> !OccursAt(s, pat, k)
    ensures ReplaceFirst(s, pat, template) == s[..i] + template + s[i + |pat|..]
  {
    var j := FirstOccurrence(s, pat, 0).value;
    assert !(i < j) && !(j < i);
    SubstituteLiteral(template, pat, s[..i], s[i + |pat|..]);
  }

  /** A text in which `pat` does not occur is returned unchanged. */
  lemma ReplaceFirstAbsent(s: string, pat: string, template: string)
    requires forall k: nat :: !OccursAt(s, pat, k)
    ensures ReplaceFirst(s, pat, template) == s
  {
  }

  /** Substitution passes a `$`-free prefix of the template through unchanged. */
  lemma {:induction false} SubstituteLiteralPrefix(prefix: string, rest: string, matched: string, before: string, after: string)
    requires '$' !in prefix
    ensures Substitute(prefix + rest, matched, before, after) == prefix + Substitute(rest, matched, before, after)
    decreases |prefix|
  {
    if |prefix| == 0 {
      assert prefix + rest == rest;
    } else {
      assert (prefix + rest)[0] == prefix[0] != '$';
      assert (prefix + rest)[1..] == prefix[1..] + rest;
      assert '$' !in prefix[1..] by {
        forall k | 0 <= k < |prefix[1..]| ensures prefix[1..][k] != '$' {
          assert prefix[1..][k] == prefix[k + 1];
        }
      }
      SubstituteLiteralPrefix(prefix[1..], rest, matched, before, after);
      assert prefix == [prefix[0]] + prefix[1..];
    }
  }

  /** `$&` between two `$`-free parts of a template stands for the matched text. */
  lemma SubstituteMatched(head: string, rest: string, matched: string, before: string, after: string)
    requires '$' !in head && '$' !in rest
    ensures Substitute(head + "$&" + rest, matched, before, after) == head + matched + rest
  {
    var tail := "$&" + rest;
    assert head + "$&" + rest == head + tail;
    SubstituteLiteralPrefix(head, tail, matched, before, after);
    assert tail[0] == '$' && tail[1] == '&' && tail[2..] == rest;
    assert Substitute(tail, matched, before, after) == matched + Substitute(rest, matched, before, after);
    SubstituteLiteral(rest, matched, before, after);
  }

  lemma NoDollarAppend(a: string, b: string)
    requires '$' !in a && '$' !in b
    ensures '$' !in a + b
  {
  }
}
