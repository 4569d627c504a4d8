/** The produce-result accumulator as the object the cascade updates in place. */
module Accumulators {
  import opened Basics
  import opened ProduceResults

  lemma {:induction false} TopicEntriesSnoc(topic: string, ps: seq<PartitionEntry>, p: PartitionEntry)
    ensures TopicEntries(topic, ps + [p]) == TopicEntries(topic, ps) + [EntryOf(topic, p)]
  {
  }

  /** The lines of a response, order forgotten. */
  ghost function Bag(resp: Response): multiset<Entry> {
    multiset(Entries(resp))
  }

  lemma BagAround(before: Response, t: ResponseTopic, after: Response)
    ensures Bag(before + [t] + after) == Bag(before) + multiset(TopicEntries(t.topic, t.partitions)) + Bag(after)
  {
    hide Entries, TopicEntries;
    EntriesSnoc(before, t);
    EntriesAppend(before + [t], after);
  }

  /** Appending a line to one topic block adds exactly that line to the response. */
  lemma AppendToBlock(before: Response, t: ResponseTopic, after: Response, p: PartitionEntry)
    ensures Bag(before + [ResponseTopic(t.topic, t.partitions + [p])] + after)
         == Bag(before + [t] + after) + multiset{EntryOf(t.topic, p)}
  {
    hide Entries, TopicEntries, Bag;
    TopicEntriesSnoc(t.topic, t.partitions, p);
    BagAround(before, t, after);
    BagAround(before, ResponseTopic(t.topic, t.partitions + [p]), after);
  }

  /** The response under construction: one block per topic, found through index. */
  ghost predicate Blocks(resp: Response, index: map<string, nat>) {
    && (forall t :: t in index ==> index[t] < |resp| && resp[index[t]].topic == t)
    && (forall i :: 0 <= i < |resp| ==> resp[i].topic in index && index[resp[i].topic] == i)
  }

  /** The response with a block for the topic, empty if it is new. */
  function WithTopic(resp: Response, index: map<string, nat>, topic: string): (Response, map<string, nat>) {
    if topic in index then (resp, index) else (resp + [ResponseTopic(topic, [])], index[topic := |resp|])
  }

  lemma WithTopicKeeps(resp: Response, index: map<string, nat>, topic: string)
    requires Blocks(resp, index)
    ensures var (resp', index') := WithTopic(resp, index, topic);
            Blocks(resp', index') && topic in index' && Bag(resp') == Bag(resp)
  {
    if topic !in index {
      EntriesSnoc(resp, ResponseTopic(topic, []));
      assert Entries(resp + [ResponseTopic(topic, [])]) == Entries(resp);
    }
  }

  /** The response with one more line, in its topic's block. */
  function PlaceLine(resp: Response, index: map<string, nat>, tp: TopicPartition, code: int): (Response, map<string, nat>)
    requires Blocks(resp, index)
  {
    WithTopicKeeps(resp, index, tp.topic);
    var (resp', index') := WithTopic(resp, index, tp.topic);
    var t := resp'[index'[tp.topic]];
    (resp'[index'[tp.topic] := ResponseTopic(t.topic, t.partitions + [PartitionEntry(tp.partition, code)])], index')
  }

  lemma PlaceLineAdds(resp: Response, index: map<string, nat>, tp: TopicPartition, code: int)
    requires Blocks(resp, index)
    ensures var (resp', index') := PlaceLine(resp, index, tp, code);
            Blocks(resp', index') && Bag(resp') == Bag(resp) + multiset{Entry(tp, code)}
  {
    hide Bag, WithTopic;
    WithTopicKeeps(resp, index, tp.topic);
    var (r, index') := WithTopic(resp, index, tp.topic);
    var i, line := index'[tp.topic], PartitionEntry(tp.partition, code);
    var t := r[i];
    AppendToBlock(r[..i], t, r[i + 1..], line);
    assert r == r[..i] + [t] + r[i + 1..];
    var t' := ResponseTopic(t.topic, t.partitions + [line]);
    assert r[i := t'] == r[..i] + [t'] + r[i + 1..];
  }

  /** Finds the block of a topic, adding an empty one the first time. */
  method GetOrAddTopic(resp: Response, index: map<string, nat>, topic: string)
    returns (resp': Response, index': map<string, nat>, i: nat)
    requires Blocks(resp, index)
    ensures (resp', index') == WithTopic(resp, index, topic)
    ensures topic in index' && i == index'[topic] < |resp'|
  {
    resp', index' := resp, index;
    if topic !in index {
      index' := index[topic := |resp|];
      resp' := resp + [ResponseTopic(topic, [])];
    }
    i := index'[topic];
  }

  method Place(resp: Response, index: map<string, nat>, tp: TopicPartition, code: int)
    returns (resp': Response, index': map<string, nat>)
    requires Blocks(resp, index)
    ensures (resp', index') == PlaceLine(resp, index, tp, code)
    ensures Blocks(resp', index')
    ensures Bag(resp') == Bag(resp) + multiset{Entry(tp, code)}
  {
    hide Bag;
    PlaceLineAdds(resp, index, tp, code);
    var i;
    resp', index', i := GetOrAddTopic(resp, index, tp.topic);
    var t := resp'[i];
    resp' := resp'[i := ResponseTopic(t.topic, t.partitions + [PartitionEntry(tp.partition, code)])];
  }

  ghost function LineBag(c: Classifier, a: Acc, keys: set<TopicPartition>): multiset<Entry> {
    multiset(LinesFor(c, a, keys))
  }

  lemma LinesForGrow(c: Classifier, a: Acc, done: set<TopicPartition>, tp: TopicPartition)
    requires tp !in done
    ensures LineBag(c, a, done + {tp}) == LineBag(c, a, done) + multiset{Entry(tp, CodeFor(c, a, tp))}
  {
  }

  lemma NothingPlaced(c: Classifier, a: Acc)
    ensures Blocks([], map[]) && Bag([]) == LineBag(c, a, {})
  {
  }

  lemma AllPlaced(c: Classifier, a: Acc, resp: Response, index: map<string, nat>)
    requires Blocks(resp, index) && Bag(resp) == LineBag(c, a, a.Keys())
    ensures IsMerged(c, a, resp)
  {
  }

  class Accumulator {
    const classify: Classifier
    var pending: set<TopicPartition>
    var resolved: map<TopicPartition, int>
    var failed: map<TopicPartition, int>
    var lastErr: Option<Error>
    var aborted: bool

    ghost function Value(): Acc
      reads this
    {
      Acc(pending, resolved, failed, lastErr, aborted)
    }

    constructor (classify: Classifier, input: set<TopicPartition>)
      ensures Value() == InitialAcc(input) && this.classify == classify
    {
      this.classify := classify;
      pending, resolved, failed, lastErr, aborted := input, map[], map[], None, false;
    }

    /** Pending partitions, in whatever order the map yields them. */
    method Remaining() returns (out: seq<TopicPartition>)
      ensures Elements(out) == pending && Distinct(out)
    {
      out := [];
      var left := pending;
      while left != {}
        invariant left <= pending && Elements(out) == pending - left && Distinct(out)
        decreases left
      {
        var tp :| tp in left;
        assert tp !in Elements(out);
        assert Elements(out + [tp]) == Elements(out) + {tp};
        out := out + [tp];
        left := left - {tp};
      }
    }

    method Accumulate(s: Scoped)
      requires s.err.None? ==> s.raw.resp.Some?
      modifies this
      ensures Value() == ProduceResults.Accumulate(classify, old(Value()), s)
    {
      if s.err.Some? {
        lastErr := s.err;
        if !classify(s.err.value).retriable {
          aborted := true;
        }
        if s.raw.resp.Some? {
          FoldFailures(Lines(s.raw.resp.value), s);
        }
        return;
      }
      FoldResolved(Lines(s.raw.resp.value), s);
    }

    function Lines(resp: Response): seq<Entry> {
      Entries(resp)
    }

    method FoldFailures(es: seq<Entry>, s: Scoped)
      modifies this`failed
      ensures Value() == RecordFailures(old(Value()), es, s)
    {
      for i := 0 to |es|
        invariant pending == old(pending) && resolved == old(resolved) && lastErr == old(lastErr) && aborted == old(aborted)
        invariant RecordFailures(Value(), es[i..], s) == RecordFailures(old(Value()), es, s)
      {
        var e := es[i];
        assert es[i..][1..] == es[i + 1..];
        if e.code != NO_ERROR && s.Owns(e.tp) && e.tp in pending {
          failed := failed[e.tp := e.code];
        }
      }
    }

    method FoldResolved(es: seq<Entry>, s: Scoped)
      modifies this`pending, this`resolved, this`failed
      ensures Value() == ResolveAll(old(Value()), es, s)
    {
      for i := 0 to |es|
        invariant lastErr == old(lastErr) && aborted == old(aborted)
        invariant ResolveAll(Value(), es[i..], s) == ResolveAll(old(Value()), es, s)
      {
        var e := es[i];
        assert es[i..][1..] == es[i + 1..];
        if s.Owns(e.tp) {
          resolved := resolved[e.tp := e.code];
          pending := pending - {e.tp};
          failed := failed - {e.tp};
        }
      }
    }

    method Code(tp: TopicPartition) returns (code: int)
      ensures code == CodeFor(classify, Value(), tp)
    {
      if tp in resolved {
        code := resolved[tp];
      } else if tp in failed {
        code := failed[tp];
      } else if lastErr.Some? {
        code := classify(lastErr.value).code;
      } else {
        code := REQUEST_TIMED_OUT;
      }
    }

    /** Adds a line for every partition of keys, in map order, after those of done. */
    method PlaceAll(start: Response, startIndex: map<string, nat>, keys: set<TopicPartition>, ghost done: set<TopicPartition>)
      returns (resp: Response, index: map<string, nat>)
      requires done !! keys && Blocks(start, startIndex)
      requires Bag(start) == LineBag(classify, Value(), done)
      ensures Blocks(resp, index)
      ensures Bag(resp) == LineBag(classify, Value(), done + keys)
    {
      hide Bag, LineBag, Blocks, CodeFor;
      resp, index := start, startIndex;
      var left := keys;
      assert done + (keys - left) == done;
      while left != {}
        invariant left <= keys && Blocks(resp, index)
        invariant Bag(resp) == LineBag(classify, Value(), done + (keys - left))
        decreases left
      {
        var tp :| tp in left;
        var code := Code(tp);
        LinesForGrow(classify, Value(), done + (keys - left), tp);
        resp, index := Place(resp, index, tp, code);
        assert done + (keys - left) + {tp} == done + (keys - (left - {tp}));
        left := left - {tp};
      }
      assert done + (keys - left) == done + keys;
    }

    method Merge() returns (resp: Response)
      requires AccInv(Value(), Value().Keys())
      ensures IsMerged(classify, Value(), resp)
    {
      hide Bag, LineBag, Blocks, IsMerged;
      NothingPlaced(classify, Value());
      var first, firstIndex := PlaceAll([], map[], resolved.Keys, {});
      assert {} + resolved.Keys == resolved.Keys;
      var index;
      resp, index := PlaceAll(first, firstIndex, pending, resolved.Keys);
      assert resolved.Keys + pending == Value().Keys();
      AllPlaced(classify, Value(), resp, index);
    }

    /** The outcome to surface: resolved lines first, then the pending ones. */
    method Result() returns (r: ProduceResult)
      requires AccInv(Value(), Value().Keys())
      ensures r.resp.Some? && IsMerged(classify, Value(), r.resp.value)
      ensures r == ResultOf(Value(), r.resp.value)
    {
      var resp := Merge();
      if pending == {} {
        r := ProduceResult(Some(resp), None);
      } else if lastErr.Some? {
        r := ProduceResult(Some(resp), Some(Wrapped(RecordTimeout, lastErr.value)));
      } else {
        r := ProduceResult(Some(resp), Some(RecordTimeout));
      }
    }
  }

  /** Duplicate partitions in the input are refused. */
  method NewAccumulator(classify: Classifier, parts: seq<TopicPartition>) returns (a: Accumulator?)
    ensures a != null <==> Distinct(parts)
    ensures a != null ==> fresh(a) && a.classify == classify && a.Value() == InitialAcc(Elements(parts))
  {
    var seen: set<TopicPartition> := {};
    for i := 0 to |parts|
      invariant seen == Elements(parts[..i]) && Distinct(parts[..i])
    {
      if parts[i] in seen {
        return null;
      }
      assert parts[..i + 1] == parts[..i] + [parts[i]];
      seen := seen + {parts[i]};
    }
    assert parts[..|parts|] == parts;
    a := new Accumulator(classify, seen);
  }
}
