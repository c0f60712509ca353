/**
 * The feedback board of the "Thank You & Feedback" tab (app.py 310-362):
 * a submission is accepted only when its text is not blank, and the board
 * shows the five most recent entries, newest first.
 *
 * The stored list is the board's `entries`; reading and rewriting the JSON
 * file around each submission is not modelled, except that a missing or
 * unreadable file starts the board empty.
 */
module Feedback {
  import opened Wrappers
  import opened Text

  /** One stored record: name, rating, text and the submission time as formatted by the caller. */
  datatype FeedbackEntry = FeedbackEntry(name: string, rating: int, text: string, date: string)

  /** How many entries the board shows. */
  const ShownCount: nat := 5

  /** The record a submission stores: an empty name becomes "Anonymous". */
  function NewEntry(name: string, rating: int, text: string, now: string): (e: FeedbackEntry)
    ensures e.rating == rating && e.text == text && e.date == now
    ensures e.name == if name == [] then "Anonymous" else name
  {
    FeedbackEntry(OrElse(name, "Anonymous"), rating, text, now)
  }

  /** `reversed(xs)`: the same elements, last first. */
  function Reversed<T>(xs: seq<T>): (r: seq<T>)
    ensures |r| == |xs|
    ensures forall k :: 0 <= k < |xs| ==> r[k] == xs[|xs| - 1 - k]
  {
    if xs == [] then [] else [xs[|xs| - 1]] + Reversed(xs[..|xs| - 1])
  }

  function Min(a: int, b: int): (m: int) {
    if a <= b then a else b
  }

  class FeedbackBoard {
    var entries: seq<FeedbackEntry>

    /** `load_feedback()`: the stored list, or an empty one when the file is missing or does not parse. */
    constructor Load(stored: Option<seq<FeedbackEntry>>)
      ensures entries == stored.GetOr([])
    {
      entries := stored.GetOr([]);
    }

    /**
     * Submitting the form: blank text (empty or whitespace only) is refused and
     * leaves the list as it was; otherwise exactly one record is appended.
     */
    method Submit(name: string, rating: int, text: string, now: string) returns (accepted: bool)
      modifies this
      ensures accepted <==> !Blank(text)
      ensures accepted ==> entries == old(entries) + [NewEntry(name, rating, text, now)]
      ensures !accepted ==> entries == old(entries)
    {
      StripEmptyIffBlank(text);
      if Strip(text) != [] {
        entries := entries + [NewEntry(name, rating, text, now)];
        accepted := true;
      } else {
        accepted := false;
      }
    }
  }

  /**
   * The display loop over `reversed(feedback_list)` that stops after the
   * fifth entry: the first min(5, |feedback|) entries of the reversed list.
   */
  method RecentFeedback(feedback: seq<FeedbackEntry>) returns (shown: seq<FeedbackEntry>)
    ensures |shown| == Min(ShownCount, |feedback|)
    ensures forall k :: 0 <= k < |shown| ==> shown[k] == feedback[|feedback| - 1 - k]
    ensures shown == Reversed(feedback)[..|shown|]
  {
    var newestFirst := Reversed(feedback);
    shown := [];
    var i := 0;
    while i < |newestFirst|
      invariant 0 <= i <= |newestFirst| && i < ShownCount
      invariant shown == newestFirst[..i]
    {
      shown := shown + [newestFirst[i]];
      if i >= ShownCount - 1 {
        break;
      }
      i := i + 1;
    }
  }

  /** A submission that is accepted puts its record first on the board. */
  lemma {:induction false} AcceptedShownFirst(before: seq<FeedbackEntry>, e: FeedbackEntry)
    ensures Reversed(before + [e])[0] == e
    ensures Reversed(before + [e])[1..] == Reversed(before)
  {
    assert (before + [e])[..|before|] == before;
  }
}
