/**
 * The sequence-label validator of the upload handler: a label is accepted
 * when it is at most `MaxSize` characters long and contains none of a fixed
 * set of symbols.
 */
module Labels {

  /** Longest label the validator accepts. */
  const MaxSize: nat := 100

  /** The symbols a label may not contain (the list names `|` twice; as a set it appears once). */
  const ForbiddenChars: set<char> :=
    {'!', '@', '#', '$', '%', '^', '&', '*', '(', ')', '\'', '"', '<', '>', '/', '?', '[', ']', '|', ',',
     '\\', '-', '=', ':', '{', '}', '`', '~', ' '}

  /** No character of `s` is one of the forbidden symbols. */
  predicate AllowedChars(s: string) {
    forall i :: 0 <= i < |s| ==> s[i] !in ForbiddenChars
  }

  /** Letters, digits, `.` and `_`: characters the validator never objects to. */
  predicate IsPlainChar(c: char) {
    ('a' <= c <= 'z') || ('A' <= c <= 'Z') || ('0' <= c <= '9') || c == '.' || c == '_'
  }

  /**
   * The search of the character-class pattern built from `ForbiddenChars`:
   * true when some position of `s` holds a forbidden symbol.
   */
  function ContainsForbidden(s: string): (found: bool)
    ensures found <==> exists i :: 0 <= i < |s| && s[i] in ForbiddenChars
    ensures !found <==> AllowedChars(s)
  {
    if s == [] then false
    else if s[0] in ForbiddenChars then true
    else
      var rest := ContainsForbidden(s[1..]);
      assert forall i :: 1 <= i < |s| ==> s[i] == s[1..][i - 1];
      rest
  }

  /** The validator: reject on a forbidden symbol or on a length above `MaxSize`. */
  function CheckValidFilename(name: string): (ok: bool)
    ensures ok <==> |name| <= MaxSize && forall i :: 0 <= i < |name| ==> name[i] !in ForbiddenChars
  {
    if ContainsForbidden(name) || |name| > MaxSize then false else true
  }

  /** A plain character is never a forbidden symbol. */
  lemma PlainCharAllowed(c: char)
    requires IsPlainChar(c)
    ensures c !in ForbiddenChars
  {
  }

  /** Any label of plain characters within the length limit is accepted, including one of exactly `MaxSize`. */
  lemma PlainLabelAccepted(name: string)
    requires |name| <= MaxSize
    requires forall i :: 0 <= i < |name| ==> IsPlainChar(name[i])
    ensures CheckValidFilename(name)
  {
    forall i | 0 <= i < |name|
      ensures name[i] !in ForbiddenChars
    {
      PlainCharAllowed(name[i]);
    }
  }

  /** Any label longer than `MaxSize` is rejected, whatever it contains. */
  lemma OverlongLabelRejected(name: string)
    requires |name| > MaxSize
    ensures !CheckValidFilename(name)
  {
  }

  /** The forbidden-symbol test is compositional over concatenation. */
  lemma {:induction false} AllowedCharsConcat(a: string, b: string)
    ensures AllowedChars(a + b) <==> AllowedChars(a) && AllowedChars(b)
  {
    if AllowedChars(a) && AllowedChars(b) {
      forall i | 0 <= i < |a + b|
        ensures (a + b)[i] !in ForbiddenChars
      {
        if i < |a| { assert (a + b)[i] == a[i]; } else { assert (a + b)[i] == b[i - |a|]; }
      }
    }
    if AllowedChars(a + b) {
      forall i | 0 <= i < |a|
        ensures a[i] !in ForbiddenChars
      {
        assert (a + b)[i] == a[i];
      }
      forall i | 0 <= i < |b|
        ensures b[i] !in ForbiddenChars
      {
        assert (a + b)[|a| + i] == b[i];
      }
    }
  }
}
