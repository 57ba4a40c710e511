/** The three tables of the poll store, one row type each, and the optional
    value used for lookups that may fail and form fields that may be missing. */
module Schema {

  datatype Maybe<+T> = None | Some(value: T)

  /** A row of the `poll` table. */
  datatype Poll = Poll(id: nat, question: string)

  /** A row of the `option` table; `pollId` is the foreign key to `poll.id`. */
  datatype Option = Option(id: nat, text: string, pollId: nat)

  /** A row of the `vote` table; `optionId` is the foreign key to `option.id`.
      Nothing checks that the option exists, so it is an arbitrary integer. */
  datatype Vote = Vote(id: nat, optionId: int)

  /** The option rows created for `texts`, in order, with consecutive ids
      from `firstId`, all pointing to poll `pollId`. */
  function NewOptions(texts: seq<string>, firstId: nat, pollId: nat): (rows: seq<Option>)
    ensures |rows| == |texts|
  {
    if texts == [] then [] else [Option(firstId, texts[0], pollId)] + NewOptions(texts[1..], firstId + 1, pollId)
  }

  /** Row `i` carries the `i`-th text and the `i`-th id. */
  lemma {:induction false} NewOptionsAt(texts: seq<string>, firstId: nat, pollId: nat, i: nat)
    requires i < |texts|
    ensures NewOptions(texts, firstId, pollId)[i] == Option(firstId + i, texts[i], pollId)
  {
    if i > 0 {
      NewOptionsAt(texts[1..], firstId + 1, pollId, i - 1);
    }
  }

  /** Adding one more text adds one more row at the end. */
  lemma {:induction false} NewOptionsSnoc(texts: seq<string>, t: string, firstId: nat, pollId: nat)
    ensures NewOptions(texts + [t], firstId, pollId)
         == NewOptions(texts, firstId, pollId) + [Option(firstId + |texts|, t, pollId)]
  {
    var a := NewOptions(texts + [t], firstId, pollId);
    var b := NewOptions(texts, firstId, pollId) + [Option(firstId + |texts|, t, pollId)];
    assert |a| == |b|;
    forall i | 0 <= i < |a| ensures a[i] == b[i] {
      NewOptionsAt(texts + [t], firstId, pollId, i);
      if i < |texts| {
        NewOptionsAt(texts, firstId, pollId, i);
      }
    }
  }

  /** HTTP verbs the handlers distinguish. */
  datatype Verb = Get | Post
}
