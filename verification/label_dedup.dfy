/**
 * Choosing the directory name of an uploaded sequence: the label is checked,
 * then extended with `_` and two random hex digits until it no longer names
 * an existing entry of the owner's upload directory.
 *
 * The names whose path already exists are a set (the directory's entries
 * together with `.` and `..`), and the random source as `draw`, where `draw(k)` is the byte produced by the
 * k-th call of the one-byte hex token generator.
 */
module LabelDedup {
  import opened Wrappers
  import opened Labels

  newtype Byte = b: int | 0 <= b < 256

  const HexDigits: string := "0123456789abcdef"

  /** The text a one-byte hex token is appended as: `_` and two lower-case hex digits, high nibble first. */
  function Suffix(b: Byte): (s: string)
    ensures |s| == 3 && s[0] == '_'
  {
    ['_', HexDigits[b as int / 16], HexDigits[b as int % 16]]
  }

  /** The value of a lower-case hex digit. */
  function HexValue(c: char): (v: int)
  {
    if '0' <= c <= '9' then c as int - '0' as int else c as int - 'a' as int + 10
  }

  /** The two digits of a suffix spell its byte, high nibble first. */
  lemma SuffixDecodes(b: Byte)
    ensures var s := Suffix(b);
            s[1] in HexDigits && s[2] in HexDigits && HexValue(s[1]) * 16 + HexValue(s[2]) == b as int
  {
    forall n | 0 <= n < 16
      ensures HexValue(HexDigits[n]) == n
    {
    }
  }

  /** The candidate label after `k` rounds of the loop. */
  function Attempt(name: string, draw: nat -> Byte, k: nat): (candidate: string)
  {
    if k == 0 then name else Attempt(name, draw, k - 1) + Suffix(draw(k - 1))
  }

  /** The length of the longest name in `names`. */
  ghost function LongestLength(names: set<string>): (longest: nat)
    decreases names
  {
    if names == {} then 0
    else
      var x :| x in names;
      var rest := LongestLength(names - {x});
      if |x| > rest then |x| else rest
  }

  /** No name in `names` is longer than `LongestLength(names)`. */
  lemma {:induction false} LongestLengthBounds(names: set<string>, y: string)
    requires y in names
    ensures |y| <= LongestLength(names)
    decreases names
  {
    var x :| x in names && LongestLength(names) == (var rest := LongestLength(names - {x}); if |x| > rest then |x| else rest);
    if y != x {
      LongestLengthBounds(names - {x}, y);
    }
  }

  /** Every round adds exactly three characters and keeps the original label as a prefix. */
  lemma {:induction false} AttemptExtends(name: string, draw: nat -> Byte, k: nat)
    ensures |Attempt(name, draw, k)| == |name| + 3 * k
    ensures name <= Attempt(name, draw, k)
  {
    if k > 0 {
      AttemptExtends(name, draw, k - 1);
    }
  }

  /** A suffix consists of `_` and hex digits, none of which is a forbidden symbol. */
  lemma SuffixAllowed(b: Byte)
    ensures AllowedChars(Suffix(b))
  {
    var s := Suffix(b);
    forall j | 0 <= j < |HexDigits|
      ensures IsPlainChar(HexDigits[j])
    {
    }
    forall i | 0 <= i < 3
      ensures s[i] !in ForbiddenChars
    {
      PlainCharAllowed(s[i]);
    }
  }

  /** A label free of forbidden symbols stays free of them through every round. */
  lemma {:induction false} AttemptKeepsAllowedChars(name: string, draw: nat -> Byte, k: nat)
    requires AllowedChars(name)
    ensures AllowedChars(Attempt(name, draw, k))
  {
    if k > 0 {
      AttemptKeepsAllowedChars(name, draw, k - 1);
      SuffixAllowed(draw(k - 1));
      AllowedCharsConcat(Attempt(name, draw, k - 1), Suffix(draw(k - 1)));
    }
  }

  /**
   * The length is not checked again after the loop: a label of 98 characters
   * or more that needed at least one round no longer passes the validator.
   */
  lemma AttemptMayExceedLimit(name: string, draw: nat -> Byte, k: nat)
    requires k >= 1 && |name| >= MaxSize - 2
    ensures !CheckValidFilename(Attempt(name, draw, k))
  {
    AttemptExtends(name, draw, k);
  }

  /** A label without forbidden symbols passes the validator after `k` rounds exactly when it is then still short enough. */
  lemma AttemptValidExactly(name: string, draw: nat -> Byte, k: nat)
    requires AllowedChars(name)
    ensures CheckValidFilename(Attempt(name, draw, k)) <==> |name| + 3 * k <= MaxSize
  {
    AttemptExtends(name, draw, k);
    AttemptKeepsAllowedChars(name, draw, k);
  }

  /**
   * The de-duplication loop. `tries` is the number of rounds; the result is the
   * first candidate not in `existing`, every earlier candidate being taken.
   */
  method Deduplicate(name: string, existing: set<string>, draw: nat -> Byte) returns (r: string, tries: nat)
    ensures r == Attempt(name, draw, tries)
    ensures r !in existing
    ensures forall j :: 0 <= j < tries ==> Attempt(name, draw, j) in existing
    ensures name <= r && |r| == |name| + 3 * tries
    ensures name !in existing ==> r == name
  {
    r, tries := name, 0;
    ghost var bound := LongestLength(existing);
    while r in existing
      invariant r == Attempt(name, draw, tries)
      invariant forall j :: 0 <= j < tries ==> Attempt(name, draw, j) in existing
      decreases bound - |r|
    {
      LongestLengthBounds(existing, r);
      r := r + Suffix(draw(tries));
      tries := tries + 1;
    }
    AttemptExtends(name, draw, tries);
    if tries > 0 {
      assert Attempt(name, draw, 0) in existing;
    }
  }

  datatype UploadError = NoSelectedFile | SymbolsInLabel

  /**
   * The names whose path exists under a directory holding the entries `entries`:
   * besides the entries, `.` and `..` always resolve to an existing path.
   */
  function ExistingPaths(entries: set<string>): (names: set<string>)
    ensures entries <= names && "." in names && ".." in names
  {
    entries + {".", ".."}
  }

  /**
   * The label part of the upload handler: an empty file name and a name the
   * validator rejects are refused; otherwise the label is de-duplicated against
   * every name whose path exists in the owner's upload directory, `entries`
   * being the directory's entries.
   */
  method UploadLabel(filename: string, entries: set<string>, draw: nat -> Byte) returns (r: Result<string, UploadError>)
    ensures filename == "" ==> r == Err(NoSelectedFile)
    ensures filename != "" && !CheckValidFilename(filename) ==> r == Err(SymbolsInLabel)
    ensures filename != "" && CheckValidFilename(filename) ==>
              r.Ok? && r.value !in entries && r.value != "." && r.value != ".."
              && filename <= r.value && AllowedChars(r.value)
              && (filename !in ExistingPaths(entries) ==> r.value == filename)
    ensures filename != "" && CheckValidFilename(filename) ==>
              r.Ok? && exists k: nat :: r.value == Attempt(filename, draw, k) &&
                                        forall j :: 0 <= j < k ==> Attempt(filename, draw, j) in ExistingPaths(entries)
    ensures filename != "" && CheckValidFilename(filename) && filename in ExistingPaths(entries) && |filename| >= MaxSize - 2 ==>
              r.Ok? && !CheckValidFilename(r.value)
  {
    if filename == "" {
      return Err(NoSelectedFile);
    }
    if !CheckValidFilename(filename) {
      return Err(SymbolsInLabel);
    }
    var taken := ExistingPaths(entries);
    var chosen, tries := Deduplicate(filename, taken, draw);
    AttemptKeepsAllowedChars(filename, draw, tries);
    if filename in taken && |filename| >= MaxSize - 2 {
      AttemptMayExceedLimit(filename, draw, tries);
    }
    r := Ok(chosen);
  }
}
