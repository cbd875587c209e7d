/** The shape every client-side form validator has: checks run in a fixed
    order and the message of the first one that fails is reported. */
module Checks {
  import opened Values

  datatype Check = Check(ok: bool, message: string)

  /** The message of the first failing check, or `None` when all pass. */
  function FirstFailure(cs: seq<Check>): Option<string>
  {
    if cs == [] then None
    else if !cs[0].ok then Some(cs[0].message)
    else FirstFailure(cs[1..])
  }

  /** `FirstFailure` reports nothing exactly when every check passes, and
      otherwise the message of a failing check preceded only by passing ones. */
  lemma {:induction false} FirstFailureSpec(cs: seq<Check>)
    ensures FirstFailure(cs).None? <==> forall i :: 0 <= i < |cs| ==> cs[i].ok
    ensures FirstFailure(cs).Some? ==>
              exists i :: 0 <= i < |cs| && !cs[i].ok && cs[i].message == FirstFailure(cs).value
                          && forall j :: 0 <= j < i ==> cs[j].ok
  {
    if cs != [] && cs[0].ok {
      var tail := cs[1..];
      FirstFailureSpec(tail);
      assert forall i :: 0 < i < |cs| ==> cs[i] == tail[i - 1];
      if FirstFailure(tail).Some? {
        var i :| 0 <= i < |tail| && !tail[i].ok && tail[i].message == FirstFailure(tail).value
                 && forall j :: 0 <= j < i ==> tail[j].ok;
        assert !cs[i + 1].ok && cs[i + 1].message == FirstFailure(cs).value;
        assert forall j :: 0 <= j < i + 1 ==> cs[j].ok;
      }
    }
  }

  /** Unfolding `FirstFailure` one check at a time. */
  lemma FirstFailureCons(c: Check, cs: seq<Check>)
    ensures FirstFailure([c] + cs) == if c.ok then FirstFailure(cs) else Some(c.message)
  {
    assert ([c] + cs)[1..] == cs;
  }

  /** The check at index `i` is the one reported when it fails and every check
      before it passes. */
  lemma {:induction false} FirstFailureAt(cs: seq<Check>, i: nat)
    requires i < |cs| && !cs[i].ok && forall j :: 0 <= j < i ==> cs[j].ok
    ensures FirstFailure(cs) == Some(cs[i].message)
  {
    if i > 0 {
      assert cs[1..][i - 1] == cs[i];
      assert forall j :: 0 <= j < i - 1 ==> cs[1..][j] == cs[j + 1];
      FirstFailureAt(cs[1..], i - 1);
    }
  }
}
