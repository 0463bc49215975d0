/**
 * The download-token table: a dictionary from token to file path, filled by
 * the genome-viewer file request, read by the download endpoint and emptied
 * entry by entry by the deferred removal.
 *
 * Tokens are supplied by the caller (they come from a random generator in the
 * system); the ten-minute delay before a removal is not modelled, a removal
 * is an explicit `Remove` call.
 */
module DownloadTokens {
  import opened Wrappers

  /** The viewer directory of a sequence: `<root>/uploads/<user id>/<label>/igv`. */
  function IgvDirectory(root: string, userId: string, seqLabel: string): (dir: string)
  {
    root + "/uploads/" + userId + "/" + seqLabel + "/igv"
  }

  function BamPath(dir: string, seqLabel: string): (path: string)
  {
    dir + "/" + seqLabel + ".bam"
  }

  function BaiPath(dir: string, seqLabel: string): (path: string)
  {
    dir + "/" + seqLabel + ".bam.bai"
  }

  /** The table after issuing `tokenBam` and `tokenBai` for the two files of `seqLabel` in `dir`. */
  function Issued(m: map<string, string>, dir: string, seqLabel: string, tokenBam: string, tokenBai: string): (m': map<string, string>)
  {
    m[tokenBam := BamPath(dir, seqLabel)][tokenBai := BaiPath(dir, seqLabel)]
  }

  /** The table after the removal of `token`; a missing token is no error. */
  function Removed(m: map<string, string>, token: string): (m': map<string, string>)
  {
    m - {token}
  }

  /** The answer of the download endpoint for `token`. */
  datatype DownloadError = InvalidToken

  function Lookup(m: map<string, string>, token: string): (r: Result<string, DownloadError>)
  {
    if token in m then Ok(m[token]) else Err(InvalidToken)
  }

  /**
   * Issuing two distinct fresh tokens adds exactly those two entries, pointing
   * at the `.bam` and `.bam.bai` files, and leaves every other entry as it was.
   */
  lemma IssueAddsExactlyTwo(m: map<string, string>, dir: string, seqLabel: string, tokenBam: string, tokenBai: string)
    requires tokenBam != tokenBai && tokenBam !in m && tokenBai !in m
    ensures var m' := Issued(m, dir, seqLabel, tokenBam, tokenBai);
            && m'.Keys == m.Keys + {tokenBam, tokenBai}
            && |m'| == |m| + 2
            && m'[tokenBam] == BamPath(dir, seqLabel)
            && m'[tokenBai] == BaiPath(dir, seqLabel)
            && forall t :: t in m ==> m'[t] == m[t]
  {
  }

  /** The index file's path is the alignment file's path with `.bai` appended. */
  lemma IndexPathExtendsBamPath(dir: string, seqLabel: string)
    ensures BaiPath(dir, seqLabel) == BamPath(dir, seqLabel) + ".bai"
  {
  }

  /** Two labels of one user never share a viewer directory. */
  lemma ViewerDirectoryPerLabel(root: string, userId: string, label1: string, label2: string)
    requires IgvDirectory(root, userId, label1) == IgvDirectory(root, userId, label2)
    ensures label1 == label2
  {
    var head := root + "/uploads/" + userId + "/";
    var d1, d2 := IgvDirectory(root, userId, label1), IgvDirectory(root, userId, label2);
    assert d1 == head + label1 + "/igv" && d2 == head + label2 + "/igv";
    assert |label1| == |label2|;
    assert label1 == d1[|head|..|head| + |label1|];
    assert label2 == d2[|head|..|head| + |label2|];
  }

  /** Two labels of one user are given different `.bam` paths. */
  lemma BamPathPerLabel(root: string, userId: string, label1: string, label2: string)
    requires BamPath(IgvDirectory(root, userId, label1), label1) == BamPath(IgvDirectory(root, userId, label2), label2)
    ensures label1 == label2
  {
    var head := root + "/uploads/" + userId + "/";
    var p1, p2 := BamPath(IgvDirectory(root, userId, label1), label1), BamPath(IgvDirectory(root, userId, label2), label2);
    assert p1 == head + label1 + ("/igv/" + label1 + ".bam");
    assert p2 == head + label2 + ("/igv/" + label2 + ".bam");
    assert |label1| == |label2|;
    assert label1 == p1[|head|..|head| + |label1|];
    assert label2 == p2[|head|..|head| + |label2|];
  }

  /** A freshly issued token is redeemed for its path, any number of times. */
  lemma IssueThenLookup(m: map<string, string>, dir: string, seqLabel: string, tokenBam: string, tokenBai: string)
    requires tokenBam != tokenBai
    ensures Lookup(Issued(m, dir, seqLabel, tokenBam, tokenBai), tokenBam) == Ok(BamPath(dir, seqLabel))
    ensures Lookup(Issued(m, dir, seqLabel, tokenBam, tokenBai), tokenBai) == Ok(BaiPath(dir, seqLabel))
  {
  }

  /** After its removal a token is invalid, and every other token answers as before. */
  lemma RemoveThenLookup(m: map<string, string>, token: string, other: string)
    requires other != token
    ensures Lookup(Removed(m, token), token) == Err(InvalidToken)
    ensures Lookup(Removed(m, token), other) == Lookup(m, other)
  {
  }

  /** Removing an absent token changes nothing, so removing twice is removing once. */
  lemma RemoveIdempotent(m: map<string, string>, token: string)
    ensures token !in m ==> Removed(m, token) == m
    ensures Removed(Removed(m, token), token) == Removed(m, token)
  {
  }

  /** Once both removals of an issue have run, the table is as it was before the issue. */
  lemma IssueThenExpire(m: map<string, string>, dir: string, seqLabel: string, tokenBam: string, tokenBai: string)
    requires tokenBam != tokenBai && tokenBam !in m && tokenBai !in m
    ensures Removed(Removed(Issued(m, dir, seqLabel, tokenBam, tokenBai), tokenBam), tokenBai) == m
  {
    var r := Removed(Removed(Issued(m, dir, seqLabel, tokenBam, tokenBai), tokenBam), tokenBai);
    assert r.Keys == m.Keys;
  }

  /** Why the viewer request was refused. */
  datatype IgvError = NoFileFound | NotReadyForView

  datatype TokenPair = TokenPair(tokenBam: string, tokenBai: string)

  /** The token dictionary shared by the request handlers. */
  class TokenTable {
    var tokens: map<string, string>

    constructor ()
      ensures tokens == map[]
    {
      tokens := map[];
    }

    /**
     * The viewer file request: refused when the viewer directory is missing or
     * either file is not there yet; otherwise both tokens are recorded and returned.
     * The three existence tests of the file system arrive as booleans.
     */
    method RequestIgvFiles(root: string, userId: string, seqLabel: string,
                           dirExists: bool, bamReady: bool, baiReady: bool,
                           tokenBam: string, tokenBai: string) returns (r: Result<TokenPair, IgvError>)
      modifies this
      ensures !dirExists ==> r == Err(NoFileFound) && tokens == old(tokens)
      ensures dirExists && !(bamReady && baiReady) ==> r == Err(NotReadyForView) && tokens == old(tokens)
      ensures dirExists && bamReady && baiReady ==>
                r == Ok(TokenPair(tokenBam, tokenBai)) &&
                tokens == Issued(old(tokens), IgvDirectory(root, userId, seqLabel), seqLabel, tokenBam, tokenBai)
    {
      var dir := IgvDirectory(root, userId, seqLabel);
      if !dirExists {
        return Err(NoFileFound);
      }
      if !bamReady || !baiReady {
        return Err(NotReadyForView);
      }
      tokens := tokens[tokenBam := BamPath(dir, seqLabel)];
      tokens := tokens[tokenBai := BaiPath(dir, seqLabel)];
      r := Ok(TokenPair(tokenBam, tokenBai));
    }

    /** The download endpoint: answers with the stored path and leaves the table as it is. */
    method Download(token: string) returns (r: Result<string, DownloadError>)
      ensures r == Lookup(tokens, token)
    {
      if token in tokens {
        r := Ok(tokens[token]);
      } else {
        r := Err(InvalidToken);
      }
    }

    /**
     * Not a handler of its own: two downloads with the same token in a row give
     * the same answer, which follows from `Download` having no modifies clause.
     */
    method DownloadTwice(token: string) returns (first: Result<string, DownloadError>, second: Result<string, DownloadError>)
      ensures first == second == Lookup(tokens, token)
    {
      first := Download(token);
      second := Download(token);
    }

    /** The deferred removal: deletes the entry, swallowing a missing key. */
    method Remove(token: string)
      modifies this
      ensures tokens == Removed(old(tokens), token)
    {
      if token in tokens {
        tokens := map t | t in tokens && t != token :: tokens[t];
      }
    }
  }
}
