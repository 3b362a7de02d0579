/** Batches and results of `unlinkAccount`. */
module Unlinking {
  import opened Journal
  import opened Optional
  import opened CanonicalStore
  import opened Sequences

  const BATCH_SIZE := 100

  datatype Unlinked = Done(events: nat, mirrors: nat, edges: nat, calendars: nat) | SendRefused | DuplicateKey | StillReferenced

  /** `executeUpgradePlan`: it ran to the end, the database refused to delete the
      feed's events, or a row's origin pair was taken. */
  datatype Upgraded = Replaced | FeedReferenced | PairTaken

  /** The first i messages have been sent in full batches, but for the last. */
  ghost predicate Chunked(messages: seq<Message>, i: nat, batches: seq<seq<Message>>) {
    && Flatten(batches) == messages[..if i < |messages| then i else |messages|]
    && (forall j :: 0 <= j < |batches| ==> 0 < |batches[j]| <= BATCH_SIZE)
    && (forall j :: 0 <= j < |batches| && (i < |messages| || j < |batches| - 1) ==> |batches[j]| == BATCH_SIZE)
  }

  lemma {:induction false} ChunkedStep(messages: seq<Message>, i: nat, end: nat, batches: seq<seq<Message>>)
    requires Chunked(messages, i, batches) && i < end <= |messages|
    requires end == if i + BATCH_SIZE < |messages| then i + BATCH_SIZE else |messages|
    ensures Chunked(messages, i + BATCH_SIZE, batches + [messages[i..end]])
    ensures Flatten(batches + [messages[i..end]]) == Flatten(batches) + messages[i..end]
  {
    FlattenSnoc(batches, messages[i..end]);
    assert messages[..end] == messages[..i] + messages[i..end];
  }

  /** Once the removals are journaled, the account's next unlink finds them. */
  lemma {:induction false} NowCollides(events: Events, journal: seq<Entry>, account: AccountId, ids: seq<EventId>)
    requires ids != [] && forall id :: id in ids ==> id in OwnEvents(events, account)
    ensures UnlinkCollides(events, journal + Deletions(ids, Some(account)), account)
  {
    var more := Deletions(ids, Some(account));
    assert more[0] == Entry(ids[0], Deleted, Some(account)) && ids[0] in ids;
    assert (journal + more)[|journal|] == more[0];
  }

  lemma {:induction false} EdgesShrink(edges: seq<Edge>, account: AccountId)
    ensures |EdgesWithout(edges, account)| <= |edges|
  {
    if edges != [] {
      EdgesShrink(edges[1..], account);
    }
  }
}
