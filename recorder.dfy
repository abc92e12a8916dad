/**
 * The result recorder: the name of the details file written for an acquired
 * instance (the notification that announces it is `OciTypes.InstanceAvailable`).
 */
module Recorder {
  import opened OciTypes

  const DETAILS_PREFIX: string := "instance_details_"
  const DETAILS_SUFFIX: string := ".json"

  /** `s` with every occurrence of `from` replaced by `to` (Python's `str.replace` on one character). */
  function ReplaceChar(s: string, from: char, to: char): (r: string)
    ensures |r| == |s|
    ensures forall i :: 0 <= i < |s| ==> r[i] == (if s[i] == from then to else s[i])
    decreases |s|
  {
    if s == [] then []
    else [if s[0] == from then to else s[0]] + ReplaceChar(s[1..], from, to)
  }

  /** The details file for `shape`: the prefix, the shape with every '.' made '_', and ".json". */
  function DetailsFileName(shape: string): (name: string)
    ensures |name| == |DETAILS_PREFIX| + |shape| + |DETAILS_SUFFIX|
    ensures name[..|DETAILS_PREFIX|] == DETAILS_PREFIX
    ensures name[|name| - |DETAILS_SUFFIX|..] == DETAILS_SUFFIX
    ensures forall i :: 0 <= i < |shape| ==>
      name[|DETAILS_PREFIX| + i] == (if shape[i] == '.' then '_' else shape[i])
    ensures forall i :: |DETAILS_PREFIX| <= i < |name| - |DETAILS_SUFFIX| ==> name[i] != '.'
  {
    DETAILS_PREFIX + ReplaceChar(shape, '.', '_') + DETAILS_SUFFIX
  }

  /** The two known shapes are recorded under different file names, so one shape's record
      never overwrites the other's. */
  lemma KnownShapesDistinctFiles()
    ensures DetailsFileName(ARM_SHAPE) != DetailsFileName(E2_MICRO_SHAPE)
  {
    assert |DetailsFileName(ARM_SHAPE)| != |DetailsFileName(E2_MICRO_SHAPE)|;
  }

  /** How many of the notifications announce a recorded instance (one per details file written). */
  function Records(sent: seq<Notification>): nat
    decreases |sent|
  {
    if sent == [] then 0
    else (if sent[0].InstanceAvailable? then 1 else 0) + Records(sent[1..])
  }

  /** Records adds up over consecutive stretches of notifications. */
  lemma {:induction false} RecordsConcat(a: seq<Notification>, b: seq<Notification>)
    ensures Records(a + b) == Records(a) + Records(b)
    decreases |a|
  {
    if a != [] {
      assert (a + b)[0] == a[0] && (a + b)[1..] == a[1..] + b;
      RecordsConcat(a[1..], b);
    } else {
      assert a + b == b;
    }
  }

  /** Notifications none of which announces an instance record nothing. */
  lemma {:induction false} NoRecordsAmong(sent: seq<Notification>)
    requires forall k :: 0 <= k < |sent| ==> !sent[k].InstanceAvailable?
    ensures Records(sent) == 0
    decreases |sent|
  {
    if sent != [] {
      NoRecordsAmong(sent[1..]);
    }
  }
}
