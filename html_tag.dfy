/** The tag test `/\<(.*?)\>/.test(body)` of server.js. In a JavaScript regular
    expression without the `s` flag, `.` matches every character except the
    four line terminators, so the test holds exactly when some `<` is followed,
    later in the string, by a `>` with no line terminator in between. */
module HtmlTag {

  /** The characters that `.` does not match. */
  predicate IsLineTerminator(c: char) {
    c == '\n' || c == '\r' || c == '\U{2028}' || c == '\U{2029}'
  }

  /** No line terminator among s[lo..hi]. */
  ghost predicate NoLineBreak(s: string, lo: nat, hi: nat)
    requires lo <= hi <= |s|
  {
    forall m :: lo <= m < hi ==> !IsLineTerminator(s[m])
  }

  /** s[i..j+1] is a match of the regular expression. */
  ghost predicate TagAt(s: string, i: nat, j: nat) {
    i < j < |s| && s[i] == '<' && s[j] == '>' && NoLineBreak(s, i + 1, j)
  }

  /** The reference meaning of the regular expression test. */
  ghost predicate ContainsTag(s: string) {
    exists i: nat, j: nat :: TagAt(s, i, j)
  }

  /** Some `<` before position k is still open at k: no line terminator lies
      between it and k. */
  ghost predicate OpenAt(s: string, k: nat)
    requires k <= |s|
  {
    exists i: nat :: i < k && s[i] == '<' && NoLineBreak(s, i + 1, k)
  }

  /** One left-to-right pass: `open` records whether a `<` is open before
      position k. */
  function ScanFrom(s: string, k: nat, open: bool): bool
    requires k <= |s|
    decreases |s| - k
  {
    if k == |s| then false
    else if open && s[k] == '>' then true
    else ScanFrom(s, k + 1, s[k] == '<' || (open && !IsLineTerminator(s[k])))
  }

  /** The executable tag test the HTML handler uses. */
  function HasTag(s: string): (r: bool)
    ensures r <==> ContainsTag(s)
  {
    ScanFinds(s, 0);
    ScanFrom(s, 0, false)
  }

  lemma OpenStep(s: string, k: nat)
    requires k < |s|
    ensures OpenAt(s, k + 1) <==> s[k] == '<' || (OpenAt(s, k) && !IsLineTerminator(s[k]))
  {
    if OpenAt(s, k + 1) && s[k] != '<' {
      var i: nat :| i < k + 1 && s[i] == '<' && NoLineBreak(s, i + 1, k + 1);
      assert i < k && NoLineBreak(s, i + 1, k);
      assert !IsLineTerminator(s[k]);
    }
    if s[k] == '<' {
      assert k < k + 1 && NoLineBreak(s, k + 1, k + 1);
    } else if OpenAt(s, k) && !IsLineTerminator(s[k]) {
      var i: nat :| i < k && s[i] == '<' && NoLineBreak(s, i + 1, k);
      assert NoLineBreak(s, i + 1, k + 1);
    }
  }

  /** Scanning from k with the right `open` flag finds exactly the matches
      that end at k or later. */
  lemma {:induction false} ScanFinds(s: string, k: nat)
    requires k <= |s|
    ensures ScanFrom(s, k, OpenAt(s, k)) <==> exists i: nat, j: nat :: TagAt(s, i, j) && k <= j
    decreases |s| - k
  {
    if k < |s| {
      if OpenAt(s, k) && s[k] == '>' {
        var i: nat :| i < k && s[i] == '<' && NoLineBreak(s, i + 1, k);
        assert TagAt(s, i, k);
      } else {
        OpenStep(s, k);
        ScanFinds(s, k + 1);
        forall i: nat | TagAt(s, i, k) ensures false {
          assert OpenAt(s, k);
        }
      }
    }
  }

  /** The HTML body of the test suite contains a tag. */
  lemma TestPageHasTag()
    ensures HasTag("<!DOCTYPE html><html><body>Hello, HTML!</body></html>")
  {
    var page := "<!DOCTYPE html><html><body>Hello, HTML!</body></html>";
    assert page[15] == '<' && page[20] == '>';
    assert NoLineBreak(page, 16, 20);
    assert TagAt(page, 15, 20);
  }

  /** A line terminator between `<` and `>` defeats the test. */
  lemma LineBreakExamples()
    ensures !HasTag("<\n>") && !HasTag("<<\r>>") && !HasTag("<\U{2028}>")
    ensures HasTag("<\n<a>")
  {
    assert TagAt("<\n<a>", 2, 4);
  }

  lemma NoTagExamples()
    ensures !HasTag("plain") && !HasTag("> <")
  {
  }
}
