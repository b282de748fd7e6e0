/**
 The one-time TLS initialisation of `ssl_handshake` in src/server.cpp: a `call_once` on a
 flag that is replaced by a fresh one when the initialisation fails. Calls are serialised by
 a mutex; the outcome an attempt would have is a parameter.
 */
module TlsInit {

  /** What a handshake call did. */
  datatype Outcome = Outcome(attempted: bool, created: bool)

  class SslInit {
    var flagSpent: bool   // the once_flag in use has been called successfully

    constructor ()
      ensures !flagSpent
    {
      flagSpent := false;
    }

    /** One call; `succeeds` is what the initialisation would return if it ran now. */
    method SslHandshake(succeeds: bool) returns (o: Outcome)
      modifies this
      ensures (flagSpent, o) == Handshake(old(flagSpent), succeeds)
    {
      var attempted := false;
      var initialized := true;
      if !flagSpent {
        attempted := true;
        initialized := succeeds;
        flagSpent := true;
      }
      if !initialized {
        flagSpent := false;   // a fresh flag
        o := Outcome(attempted, false);
      } else {
        o := Outcome(attempted, true);
      }
    }
  }

  function Handshake(flagSpent: bool, succeeds: bool): (bool, Outcome) {
    if flagSpent then (true, Outcome(false, true)) else (succeeds, Outcome(true, succeeds))
  }

  /** The flag after a sequence of calls with the given outcomes. */
  function FlagAfter(outcomes: seq<bool>): bool {
    if outcomes == [] then false
    else Handshake(FlagAfter(outcomes[..|outcomes| - 1]), outcomes[|outcomes| - 1]).0
  }

  /** What call i of the sequence did. */
  function CallOutcome(outcomes: seq<bool>, i: nat): Outcome
    requires i < |outcomes|
  {
    Handshake(FlagAfter(outcomes[..i]), outcomes[i]).1
  }

  lemma {:induction false} FlagMeansSuccess(outcomes: seq<bool>)
    ensures FlagAfter(outcomes) <==> true in outcomes
  {
    if outcomes != [] {
      FlagMeansSuccess(outcomes[..|outcomes| - 1]);
      assert outcomes == outcomes[..|outcomes| - 1] + [outcomes[|outcomes| - 1]];
    }
  }

  /**
   Over every sequence of calls and outcomes, initialisation is attempted until it first
   succeeds and never again, and a handshake session is created in a call exactly when some
   attempt up to and including that call has succeeded.
   */
  lemma OnceUntilSuccess(outcomes: seq<bool>, i: nat)
    requires i < |outcomes|
    ensures CallOutcome(outcomes, i).attempted <==> forall j :: 0 <= j < i ==> !outcomes[j]
    ensures CallOutcome(outcomes, i).created <==>
              exists j :: 0 <= j <= i && outcomes[j] && CallOutcome(outcomes, j).attempted
  {
    FlagMeansSuccess(outcomes[..i]);
    if CallOutcome(outcomes, i).created {
      FirstSuccess(outcomes, i);
    }
    if j :| 0 <= j <= i && outcomes[j] && CallOutcome(outcomes, j).attempted {
      assert j < i ==> outcomes[..i][j];
    }
  }

  lemma {:induction false} FirstSuccess(outcomes: seq<bool>, i: nat)
    requires i < |outcomes| && CallOutcome(outcomes, i).created
    ensures exists j :: 0 <= j <= i && outcomes[j] && CallOutcome(outcomes, j).attempted
  {
    if FlagAfter(outcomes[..i]) {
      assert outcomes[..i][..i - 1] == outcomes[..i - 1];
      assert CallOutcome(outcomes, i - 1).created;
      FirstSuccess(outcomes, i - 1);
    }
  }
}
