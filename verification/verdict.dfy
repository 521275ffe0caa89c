/**
 * The classifier adapter of verifyMessageWithOpenAI: the language model's
 * reply is trimmed of surrounding white space, lower-cased, and approved
 * exactly when it is the Russian affirmative "да". A transport error is
 * reported as (false, "", err), so it never reads as approval.
 */
module Verdict {
  import opened Wrappers

  /** Go's unicode.IsSpace: the Latin-1 spaces plus Unicode White_Space. */
  predicate IsSpace(c: char) {
    c == '\t' || c == '\n' || c == '\U{000B}' || c == '\U{000C}' || c == '\r' || c == ' '
    || c == '\U{0085}' || c == '\U{00A0}' || c == '\U{1680}'
    || ('\U{2000}' <= c <= '\U{200A}')
    || c == '\U{2028}' || c == '\U{2029}' || c == '\U{202F}' || c == '\U{205F}' || c == '\U{3000}'
  }

  predicate AllSpace(s: string) {
    forall k :: 0 <= k < |s| ==> IsSpace(s[k])
  }

  /** Number of white-space characters at the front of s. */
  function LeadingSpaces(s: string): (n: nat)
    ensures n <= |s|
    ensures forall k :: 0 <= k < n ==> IsSpace(s[k])
    ensures n < |s| ==> !IsSpace(s[n])
  {
    if s != [] && IsSpace(s[0]) then
      var m := LeadingSpaces(s[1..]);
      assert forall k :: 1 <= k < 1 + m ==> s[k] == s[1..][k - 1];
      1 + m
    else 0
  }

  /** Number of white-space characters at the back of s. */
  function TrailingSpaces(s: string): (n: nat)
    ensures n <= |s|
    ensures forall k :: |s| - n <= k < |s| ==> IsSpace(s[k])
    ensures n < |s| ==> !IsSpace(s[|s| - n - 1])
  {
    if s != [] && IsSpace(s[|s| - 1]) then
      var init := s[..|s| - 1];
      var m := TrailingSpaces(init);
      assert forall k :: 0 <= k < |init| ==> s[k] == init[k];
      1 + m
    else 0
  }

  /** r sits in s at offset i with nothing but white space around it. */
  predicate TrimsTo(s: string, i: int, r: string) {
    0 <= i && i + |r| <= |s| && s[i..i + |r|] == r && AllSpace(s[..i]) && AllSpace(s[i + |r|..])
  }

  /**
   * strings.TrimSpace: s without its leading and trailing white space. What
   * it drops is white space, and what it keeps is the slice of s that starts
   * at the first non-space character.
   */
  function TrimSpace(s: string): (r: string)
    ensures r == [] <==> AllSpace(s)
    ensures r != [] ==> !IsSpace(r[0]) && !IsSpace(r[|r| - 1])
    ensures TrimsTo(s, LeadingSpaces(s), r)
  {
    var lo := LeadingSpaces(s);
    var hi := if lo == |s| then |s| else |s| - TrailingSpaces(s);
    assert lo <= hi;
    assert AllSpace(s[..lo]) by {
      forall k | 0 <= k < lo ensures IsSpace(s[..lo][k]) {
        assert s[..lo][k] == s[k];
      }
    }
    assert AllSpace(s[hi..]) by {
      forall k | 0 <= k < |s| - hi ensures IsSpace(s[hi..][k]) {
        assert s[hi..][k] == s[hi + k];
      }
    }
    s[lo..hi]
  }

  lemma {:induction false} LeadingSpacesOfPadded(lead: string, rest: string)
    requires AllSpace(lead)
    requires rest != [] && !IsSpace(rest[0])
    ensures LeadingSpaces(lead + rest) == |lead|
  {
    if lead != [] {
      assert (lead + rest)[1..] == lead[1..] + rest;
      LeadingSpacesOfPadded(lead[1..], rest);
    }
  }

  lemma {:induction false} TrailingSpacesOfPadded(rest: string, trail: string)
    requires AllSpace(trail)
    requires rest != [] && !IsSpace(rest[|rest| - 1])
    ensures TrailingSpaces(rest + trail) == |trail|
  {
    if trail != [] {
      var init := trail[..|trail| - 1];
      assert (rest + trail)[..|rest + trail| - 1] == rest + init;
      TrailingSpacesOfPadded(rest, init);
    }
  }

  /**
   * TrimSpace recovers the word from any white-space padding around it,
   * provided the word itself neither starts nor ends with white space.
   */
  lemma TrimSpaceOfPadded(lead: string, w: string, trail: string)
    requires AllSpace(lead) && AllSpace(trail)
    requires w != [] && !IsSpace(w[0]) && !IsSpace(w[|w| - 1])
    ensures TrimSpace(lead + w + trail) == w
  {
    var s := lead + w + trail;
    assert s == lead + (w + trail);
    LeadingSpacesOfPadded(lead, w + trail);
    assert s[|lead|..] == w + trail;
    TrailingSpacesOfPadded(w, trail);
  }

  /**
   * The single-character lower-casing that strings.ToLower applies: ASCII
   * capitals and the basic Cyrillic capitals U+0400..U+042F, which covers
   * every letter of "да" and "нет". Other characters are left unchanged.
   */
  function LowerChar(c: char): (l: char)
    ensures c == 'д' || c == 'Д' <==> l == 'д'
    ensures c == 'а' || c == 'А' <==> l == 'а'
    ensures IsSpace(c) <==> IsSpace(l)
  {
    if 'A' <= c <= 'Z' then (c as int + 32) as char
    else if '\U{0410}' <= c <= '\U{042F}' then (c as int + 32) as char
    else if '\U{0400}' <= c <= '\U{040F}' then (c as int + 80) as char
    else c
  }

  /** strings.ToLower, character by character. */
  function ToLower(s: string): (r: string)
    ensures |r| == |s|
    ensures forall k :: 0 <= k < |s| ==> r[k] == LowerChar(s[k])
  {
    seq(|s|, k requires 0 <= k < |s| => LowerChar(s[k]))
  }

  const Affirmative: string := "да"

  /** What the classifier call returned: a transport error or a reply text. */
  datatype ClassifierOutcome = ClassifierError(err: string) | Completion(content: string)

  /** The triple (approved, answer, err) of verifyMessageWithOpenAI. */
  datatype Verdict = Verdict(approved: bool, answer: string, err: Option<string>)

  /** The normalised answer: lower-cased, white space trimmed. */
  function Normalize(content: string): (answer: string)
    ensures |answer| <= |content|
    ensures answer == [] <==> AllSpace(content)
    ensures answer != [] ==> !IsSpace(answer[0]) && !IsSpace(answer[|answer| - 1])
  {
    ToLower(TrimSpace(content))
  }

  /** verifyMessageWithOpenAI after the network call (main.go:49-54). */
  function Interpret(o: ClassifierOutcome): (v: Verdict)
    ensures o.ClassifierError? ==> v == Verdict(false, "", Some(o.err))
    ensures o.Completion? ==> v.err == None && v.answer == Normalize(o.content)
    ensures v.approved ==> v.err == None && v.answer == Affirmative
    ensures o.Completion? ==> (v.approved <==> v.answer == Affirmative)
  {
    match o
    case ClassifierError(e) => Verdict(false, "", Some(e))
    case Completion(content) =>
      var answer := Normalize(content);
      Verdict(answer == Affirmative, answer, None)
  }

  /** The four spellings that lower-case to "да". */
  predicate IsAffirmativeSpelling(w: string) {
    w == "да" || w == "Да" || w == "дА" || w == "ДА"
  }

  /** content[i..j] is an affirmative spelling padded only with white space. */
  predicate PaddedAffirmative(content: string, i: int, j: int) {
    0 <= i <= j <= |content| && AllSpace(content[..i]) && AllSpace(content[j..])
    && IsAffirmativeSpelling(content[i..j])
  }

  lemma LowerIsAffirmative(w: string)
    ensures ToLower(w) == Affirmative <==> IsAffirmativeSpelling(w)
  {
    if ToLower(w) == Affirmative {
      assert |w| == 2;
      assert LowerChar(w[0]) == 'д' && LowerChar(w[1]) == 'а';
      assert w == [w[0], w[1]];
    }
  }

  lemma ApprovedIsPadded(content: string)
    requires Interpret(Completion(content)).approved
    ensures PaddedAffirmative(content, LeadingSpaces(content), LeadingSpaces(content) + 2)
  {
    var t := TrimSpace(content);
    assert ToLower(t) == Affirmative;
    LowerIsAffirmative(t);
  }

  lemma PaddedIsApproved(content: string, i: int, j: int)
    requires PaddedAffirmative(content, i, j)
    ensures Interpret(Completion(content)).approved
  {
    var w := content[i..j];
    assert content == content[..i] + w + content[j..];
    assert w[0] == 'д' || w[0] == 'Д';
    assert w[1] == 'а' || w[1] == 'А';
    TrimSpaceOfPadded(content[..i], w, content[j..]);
    LowerIsAffirmative(w);
  }

  /**
   * A reply is approved exactly when it is "да" in any letter case, with
   * nothing around it but white space.
   */
  lemma ApprovedIffPaddedAffirmative(content: string)
    ensures Interpret(Completion(content)).approved <==> exists i, j :: PaddedAffirmative(content, i, j)
  {
    if Interpret(Completion(content)).approved {
      ApprovedIsPadded(content);
    }
    if exists i, j :: PaddedAffirmative(content, i, j) {
      var i, j :| PaddedAffirmative(content, i, j);
      PaddedIsApproved(content, i, j);
    }
  }

  /** A transport error is never an approval. */
  lemma ErrorNeverApproves(e: string)
    ensures !Interpret(ClassifierError(e)).approved
  {
  }

  /** A padded upper-case "ДА" is approved. */
  lemma SampleUpperCaseApproved()
    ensures Interpret(Completion(" ДА\n")).approved
  {
    PaddedIsApproved(" ДА\n", 1, 3);
  }

  /** The negative token "нет" is a rejection, not an error. */
  lemma SampleNegativeRejected()
    ensures Interpret(Completion("нет")) == Verdict(false, "нет", None)
  {
    var w := "нет";
    assert TrimSpace(w) == w by {
      TrimSpaceOfPadded([], w, []);
      assert [] + w + [] == w;
    }
    assert ToLower(w) == w by {
      assert LowerChar(w[0]) == w[0] && LowerChar(w[1]) == w[1] && LowerChar(w[2]) == w[2];
    }
  }

  /** Trailing punctuation defeats approval. */
  lemma SamplePunctuatedRejected()
    ensures !Interpret(Completion("да.")).approved
  {
    TrimSpaceOfPadded("", "да.", "");
    assert "" + "да." + "" == "да.";
    LowerIsAffirmative("да.");
  }
}
