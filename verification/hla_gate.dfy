/**
 * The HLA*LA start gate and the typing-results gate.
 *
 * The per-job status code is read from a status store that is not part of
 * this model, so it arrives as an integer parameter; the process-wide
 * "tool available" flag is the field of `ToolFlag`.
 */
module HlaGate {

  // status codes
  const IDLE: int := 0
  const WORKING: int := 1
  const COMPLETED: int := 2

  /** The four answers of the start request. */
  datatype StartOutcome = AlreadyProcessed | BeingProcessed | Busy | Started

  /**
   * The decision of the start request: the status is consulted first, and the
   * availability flag only for a status other than `COMPLETED` and `WORKING`.
   */
  function StartDecision(status: int, available: bool): (o: StartOutcome)
  {
    if status == COMPLETED then AlreadyProcessed
    else if status == WORKING then BeingProcessed
    else if !available then Busy
    else Started
  }

  /** A finished or running job is reported as such whatever the flag says. */
  lemma StatusDecidesFirst(status: int, a1: bool, a2: bool)
    requires status == COMPLETED || status == WORKING
    ensures StartDecision(status, a1) == StartDecision(status, a2)
    ensures StartDecision(status, a1) == (if status == COMPLETED then AlreadyProcessed else BeingProcessed)
  {
  }

  /** A run is started exactly when the job is neither running nor finished and the tool is free. */
  lemma StartedExactly(status: int, available: bool)
    ensures StartDecision(status, available) == Started <==>
              status != COMPLETED && status != WORKING && available
  {
  }

  /** "Busy" is reported exactly when the status lets the request through and the tool is taken. */
  lemma BusyExactly(status: int, available: bool)
    ensures StartDecision(status, available) == Busy <==>
              status != COMPLETED && status != WORKING && !available
  {
  }

  /** Every status other than `WORKING` and `COMPLETED`, not only `IDLE`, reaches the flag. */
  lemma IdleLikeStatuses(status: int)
    requires status != COMPLETED && status != WORKING
    ensures StartDecision(status, true) == Started && StartDecision(status, false) == Busy
    ensures StartDecision(status, true) == StartDecision(IDLE, true)
    ensures StartDecision(status, false) == StartDecision(IDLE, false)
  {
  }

  /** The process-wide availability flag of the exclusive tool. */
  class ToolFlag {
    var available: bool

    constructor (available: bool)
      ensures this.available == available
    {
      this.available := available;
    }

    /** The health endpoint: marks the tool available, whatever it was. */
    method SetAvailable()
      modifies this
      ensures available
    {
      available := true;
    }

    /** The start request reads the flag and changes nothing. */
    method RequestRun(status: int) returns (o: StartOutcome)
      ensures o == StartDecision(status, available)
    {
      o := StartDecision(status, available);
    }
  }

  /** The result list: the ADR entries of every allele, in allele order. */
  function AdrList<A, B>(alleles: seq<A>, adr: A -> seq<B>): (entries: seq<B>)
  {
    if alleles == [] then []
    else AdrList(alleles[..|alleles| - 1], adr) + adr(alleles[|alleles| - 1])
  }

  /** The result list of a concatenation of allele lists is the concatenation of their result lists. */
  lemma {:induction false} AdrListAppend<A, B>(xs: seq<A>, ys: seq<A>, adr: A -> seq<B>)
    ensures AdrList(xs + ys, adr) == AdrList(xs, adr) + AdrList(ys, adr)
    decreases |ys|
  {
    if ys == [] {
      assert xs + ys == xs;
    } else {
      var init := ys[..|ys| - 1];
      assert (xs + ys)[..|xs + ys| - 1] == xs + init;
      AdrListAppend(xs, init, adr);
    }
  }

  /** Each allele contributes its own ADR entries, whole and in place. */
  lemma {:induction false} AdrListSingle<A, B>(a: A, adr: A -> seq<B>)
    ensures AdrList([a], adr) == adr(a)
  {
    assert [a][..0] == [];
  }

  /**
   * The typing-results request: an empty list unless the status is
   * `COMPLETED`, and otherwise the ADR entries of every parsed allele.
   */
  method TypingResults<A, B>(status: int, alleles: seq<A>, adr: A -> seq<B>) returns (results: seq<B>)
    ensures status != COMPLETED ==> results == []
    ensures status == COMPLETED ==> results == AdrList(alleles, adr)
  {
    if status != COMPLETED {
      return [];
    }
    results := [];
    for i := 0 to |alleles|
      invariant results == AdrList(alleles[..i], adr)
    {
      assert alleles[..i + 1][..i] == alleles[..i];
      results := results + adr(alleles[i]);
    }
    assert alleles[..|alleles|] == alleles;
  }
}
