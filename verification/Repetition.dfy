/** Which of a list of messages, numbered from 0 modulo 256, a receiver keeps that knows only the last number it heard. */
module Repetition {
  import opened Bytes
  import opened Frame
  import opened Arq

  predicate Fits(msg: Msg) {
    |msg.payload| <= MAX_PAYLOAD
  }

  /** The messages that fit a frame. */
  function Fitting(msgs: seq<Msg>): seq<Msg> {
    if msgs == [] then []
    else Fitting(msgs[..|msgs| - 1]) + if Fits(msgs[|msgs| - 1]) then [msgs[|msgs| - 1]] else []
  }

  /** The index of the last message that fits a frame, or -1. */
  function LastFitting(msgs: seq<Msg>): (p: int)
    ensures -1 <= p < |msgs| && (p >= 0 ==> Fits(msgs[p]))
    ensures forall k :: p < k < |msgs| ==> !Fits(msgs[k])
  {
    if msgs == [] then -1
    else if Fits(msgs[|msgs| - 1]) then |msgs| - 1
    else LastFitting(msgs[..|msgs| - 1])
  }

  lemma LastBefore(msgs: seq<Msg>, i: nat)
    requires i < |msgs|
    ensures var p := LastFitting(msgs[..i]);
            -1 <= p < i && (p >= 0 ==> Fits(msgs[p])) && forall k :: p < k < i ==> !Fits(msgs[k])
  {
    hide Fits;
    var p := LastFitting(msgs[..i]);
    assert forall k :: 0 <= k < i ==> msgs[..i][k] == msgs[k];
  }

  /** Message i fits a frame and does not carry the same number as the one before it that does. */
  predicate Keeps(msgs: seq<Msg>, i: nat)
    requires i < |msgs|
  {
    var p := LastFitting(msgs[..i]);
    Fits(msgs[i]) && !(p >= 0 && (i - p) % 256 == 0)
  }

  function Kept(msgs: seq<Msg>): seq<Msg> {
    if msgs == [] then []
    else
      var n := |msgs| - 1;
      Kept(msgs[..n]) + if Keeps(msgs, n) then [msgs[n]] else []
  }

  lemma KeepsPrefix(msgs: seq<Msg>, i: nat, n: nat)
    requires i < n <= |msgs|
    ensures Keeps(msgs[..n], i) == Keeps(msgs, i)
  {
    assert msgs[..n][..i] == msgs[..i];
  }

  lemma KeptGrows(msgs: seq<Msg>, n: nat)
    requires n < |msgs|
    ensures Kept(msgs[..n + 1]) == Kept(msgs[..n]) + if Keeps(msgs, n) then [msgs[n]] else []
  {
    hide Keeps;
    assert msgs[..n + 1][..n] == msgs[..n];
    KeepsPrefix(msgs, n, n + 1);
  }

  ghost predicate KeepsAll(msgs: seq<Msg>) {
    forall i :: 0 <= i < |msgs| && Fits(msgs[i]) ==> Keeps(msgs, i)
  }

  lemma {:induction false} KeptCount(msgs: seq<Msg>)
    ensures |Kept(msgs)| <= |Fitting(msgs)|
    ensures KeepsAll(msgs) ==> Kept(msgs) == Fitting(msgs)
    ensures |Kept(msgs)| == |Fitting(msgs)| ==> KeepsAll(msgs)
  {
    hide Keeps, LastFitting;
    if msgs != [] {
      var n := |msgs| - 1;
      KeptCount(msgs[..n]);
      KeepsAllBefore(msgs);
      KeepsFits(msgs, n);
    }
  }

  lemma KeepsFits(msgs: seq<Msg>, i: nat)
    requires i < |msgs|
    ensures Keeps(msgs, i) ==> Fits(msgs[i])
  {
  }

  lemma KeepsAllBefore(msgs: seq<Msg>)
    requires msgs != []
    ensures var n := |msgs| - 1; KeepsAll(msgs) <==> KeepsAll(msgs[..n]) && (Fits(msgs[n]) ==> Keeps(msgs, n))
  {
    hide Keeps, Fits;
    var n := |msgs| - 1;
    forall i | 0 <= i < n ensures msgs[..n][i] == msgs[i] && Keeps(msgs[..n], i) == Keeps(msgs, i) {
      KeepsPrefix(msgs, i, n);
    }
  }

  /** Everything that fits is kept exactly if no two such messages in succession are a multiple of 256 apart. */
  lemma NothingLost(msgs: seq<Msg>)
    ensures Kept(msgs) == Fitting(msgs) <==> KeepsAll(msgs)
  {
    hide KeepsAll, Kept, Fitting;
    KeptCount(msgs);
  }

  /** Fewer than 255 messages in a row do not fit a frame. */
  ghost predicate Dense(msgs: seq<Msg>) {
    forall i: nat :: i + 255 <= |msgs| ==> HoldsFitting(msgs, i)
  }

  ghost predicate HoldsFitting(msgs: seq<Msg>, i: nat) {
    exists k :: i <= k < i + 255 && k < |msgs| && Fits(msgs[k])
  }

  lemma DenseLosesNothing(msgs: seq<Msg>)
    requires Dense(msgs)
    ensures Kept(msgs) == Fitting(msgs)
  {
    hide Kept, Fitting;
    forall i | 0 <= i < |msgs| && Fits(msgs[i]) ensures Keeps(msgs, i) {
      var p := LastFitting(msgs[..i]);
      assert p >= 0 && i - p >= 256 ==> HoldsFitting(msgs, p + 1);
      LastBefore(msgs, i);
    }
    NothingLost(msgs);
  }
}
