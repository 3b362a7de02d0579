/** The queue messages that ask for mirrors to be written or deleted. */
module MirrorMessages {
  import opened Journal
  import opened CanonicalStore

  function DeleteMessage(mirrors: Mirrors, k: Key): Message
    requires k in mirrors
  {
    DeleteMirror(k, mirrors[k].calendar, if mirrors[k].provider.Some? then mirrors[k].provider.value else "")
  }

  function DeleteMessages(mirrors: Mirrors, ks: seq<Key>): (r: seq<Message>)
    requires forall k :: k in ks ==> k in mirrors
    ensures |r| == |ks| && forall i :: 0 <= i < |ks| ==> r[i] == DeleteMessage(mirrors, ks[i])
  {
    seq(|ks|, i requires 0 <= i < |ks| => DeleteMessage(mirrors, ks[i]))
  }

  function KeysOf(mirrors: Mirrors, id: EventId): set<Key> {
    set k | k in mirrors && k.event == id
  }

  predicate IsProviderAccount(a: AccountId) {
    |a| >= 4 && a[..4] == "acc_"
  }

  function OriginDelete(id: EventId, r: Row): seq<Message> {
    if IsProviderAccount(r.origin) && r.originEvent != "" then [DeleteMirror(Key(id, r.origin), "primary", r.originEvent)] else []
  }

  function MessageFor(mirrors: Mirrors, k: Key): Message
    requires k in mirrors
  {
    UpsertMirror(k, mirrors[k].calendar, mirrors[k].hash)
  }
}
