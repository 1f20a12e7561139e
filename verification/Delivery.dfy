/** The agent's run and the client's reader together: what a reader of the stream is shown. */
module Delivery {
  import opened Sequences
  import opened EventStream
  import Running

  /** How a payload is written as JSON text. */
  type Encoding = Running.Item -> string

  function Encoded(item: Running.Item, encode: Encoding): Item {
    match item
    case Progress(_) => Step(encode(item))
    case Said(_) => Answered(encode(item))
    case Traced(_) => Item.Traced(encode(item))
  }

  function AllEncoded(items: seq<Running.Item>, encode: Encoding): seq<Item> {
    seq(|items|, i requires 0 <= i < |items| => Encoded(items[i], encode))
  }

  function Written(said: seq<string>, encode: Encoding): seq<string> {
    seq(|said|, i requires 0 <= i < |said| => encode(Running.Progress(said[i])))
  }

  lemma {:induction false} StepsAreSpoken(items: seq<Running.Item>, encode: Encoding)
    ensures StepsOf(AllEncoded(items, encode)) == Written(Running.Spoken(items), encode)
  {
    var all := AllEncoded(items, encode);
    if items != [] {
      var n := |items| - 1;
      StepsAreSpoken(items[..n], encode);
      assert all[..n] == AllEncoded(items[..n], encode);
      if items[n].Progress? {
        assert Running.Spoken(items) == Running.Spoken(items[..n]) + [items[n].message];
        assert Written(Running.Spoken(items), encode)
            == Written(Running.Spoken(items[..n]), encode) + [encode(items[n])];
      }
    } else {
      assert Written([], encode) == [];
    }
  }

  /** Whatever the provider, the tools and the service do, and however the network cuts the text, the
      client reports the exchange, every step in order, and the run's one answer. */
  lemma EveryRunReachesTheClient(
    items: seq<Running.Item>, encode: Encoding, exchange: string, chunks: seq<string>)
    requires Running.AnsweredThenTraced(items)
    requires Compact(exchange) && forall item :: Compact(encode(item))
    requires Concat(chunks) == PrintAll(Sent(exchange, AllEncoded(items, encode)))
    ensures DataOf(Batch(Concat(chunks)), SESSION) == [exchange]
    ensures DataOf(Batch(Concat(chunks)), PROGRESS) == Written(Running.Spoken(items), encode)
    ensures LastOf(DataOf(Batch(Concat(chunks)), ANSWER)) == Some(encode(items[|items| - 2]))
  {
    hide Compact, Batch, PrintAll, Sent, DataOf, Concat, LastOf, StepsOf, Written, AllEncoded, HasTrace, LastAnswer;
    EncodedAnswer(items, encode);
    PayloadsAreEncoded(items, encode);
    ClientSeesTheRun(exchange, AllEncoded(items, encode), chunks);
    StepsAreSpoken(items, encode);
  }

  lemma PayloadsAreEncoded(items: seq<Running.Item>, encode: Encoding)
    requires forall item :: Compact(encode(item))
    ensures (var sent := AllEncoded(items, encode); forall i :: 0 <= i < |sent| ==> Compact(sent[i].Payload()))
  {
    hide Compact;
  }

  lemma EncodedAnswer(items: seq<Running.Item>, encode: Encoding)
    requires Running.AnsweredThenTraced(items)
    ensures HasTrace(AllEncoded(items, encode))
    ensures LastAnswer(AllEncoded(items, encode)) == Some(encode(items[|items| - 2]))
  {
    var sent, n := AllEncoded(items, encode), |items| - 2;
    assert Running.InPlace(items, n) && Running.InPlace(items, n + 1);
    assert sent[..n + 1][n] == Encoded(items[n], encode) && sent[n + 1] == Encoded(items[n + 1], encode);
    assert sent[n + 1].Traced?;
    assert LastAnswer(sent[..n + 1]) == Some(encode(items[n]));
  }

  /** A run that raises leaves the client with its steps and the error it shows for a missing answer. */
  lemma RaisingRunsShowNoAnswer(
    items: seq<Running.Item>, encode: Encoding, exchange: string, chunks: seq<string>)
    requires Running.Unanswered(items)
    requires Compact(exchange) && forall item :: Compact(encode(item))
    requires Concat(chunks) == PrintAll(Sent(exchange, AllEncoded(items, encode)))
    ensures DataOf(Batch(Concat(chunks)), PROGRESS) == Written(Running.Spoken(items), encode)
    ensures LastOf(DataOf(Batch(Concat(chunks)), ANSWER)) == None
  {
    hide Compact, Batch, PrintAll, Sent, DataOf, Concat, LastOf;
    var sent := AllEncoded(items, encode);
    ClientSeesTheRun(exchange, sent, chunks);
    Running.NoneCounted(items);
    assert forall i :: 0 <= i < |sent| ==> sent[i] == Encoded(items[i], encode) && !sent[i].Traced?;
    StepsAreSpoken(items, encode);
  }
}
