/**
  The keyword chatbot of `chatbot/views.py`. The reply table is a Python dict
  literal: its entries are evaluated in order, a repeated key keeps the place of its
  first occurrence and takes the value of its last, and iteration follows that
  order. `get_bot_reply` returns the value of the first key, in table order, that
  occurs in the message; the view lowercases the message first.

  A reply is identified by the line of `chatbot/views.py` that holds its text
  (59 to 179 for the table, 187 for the fallback, 54 for `Invalid request`).
*/
module Chatbot {
  import opened Options
  import opened Text

  /** Key-value pairs in order. */
  type Table<V> = seq<(string, V)>

  /** The entries of the `responses` literal in source order, repeated keys included, by the literal's sections. */
  function Entries(): Table<nat> {
    // greetings
    [ ("hi", 59), ("hello", 60), ("help", 61), ("info", 62) ]
    // navigation
    + [ ("adopt", 65), ("community", 66), ("shop", 67), ("vets", 68),
      ("consultation", 69), ("appointment", 70), ("schedule", 71) ]
    // allergies
    + [ ("allergy", 75), ("itching", 76), ("pollen", 77), ("dust", 78),
      ("food", 79), ("flea", 80), ("symptoms", 81), ("treatment", 82),
      ("testing", 83), ("shampoo", 84), ("diet", 85) ]
    // dog care
    + [ ("puppy", 89), ("tick", 90), ("bath", 91), ("training", 92),
      ("neuter", 93) ]
    // cat care
    + [ ("kitten", 96), ("litter", 97), ("scratch", 98), ("fur", 99) ]
    // health
    + [ ("vaccine", 102), ("vaccinate", 103), ("worm", 104), ("fever", 105),
      ("injury", 106), ("vomit", 107), ("diarrhea", 108) ]
    // food
    + [ ("food", 111), ("treats", 112), ("toxic", 113) ]
    // behaviour
    + [ ("bark", 116), ("meow", 117), ("anxiety", 118), ("play", 119),
      ("peeing", 120) ]
    // general
    + [ ("toxic", 123), ("vet", 124) ]
    // general
    + [ ("clinic", 128), ("toxic", 129), ("sick", 130), ("travel", 131) ]
    // dogs
    + [ ("puppy", 134), ("breed", 135), ("bark", 136), ("walk", 137),
      ("leash", 138), ("training", 139), ("grooming", 140), ("bath", 141),
      ("tick", 142), ("vaccine", 143), ("food", 144), ("weight", 145),
      ("neuter", 146), ("bloat", 147) ]
    // cats
    + [ ("kitten", 150), ("scratch", 151), ("claw", 152), ("meow", 153),
      ("litter", 154), ("fur", 155), ("hairball", 156), ("spay", 157),
      ("vaccine", 158), ("food", 159), ("whisker", 160), ("purr", 161) ]
    // health and safety
    + [ ("worm", 164), ("fever", 165), ("injury", 166), ("diarrhea", 167),
      ("vomit", 168), ("medicine", 169), ("ear", 170), ("eye", 171) ]
    // behaviour
    + [ ("aggression", 174), ("aggresive", 175), ("anxiety", 176), ("chew", 177),
      ("play", 178), ("sleep", 179) ]
  }

  /** No key appears twice. */
  predicate UniqueKeys<V>(d: Table<V>) {
    forall i, j :: 0 <= i < j < |d| ==> d[i].0 != d[j].0
  }

  /** The value of the first entry with the key: `d.get(k)` on a dict. */
  function Lookup<V>(d: Table<V>, k: string): (r: Option<V>)
    ensures r.Some? ==> (k, r.value) in d
    ensures r.None? <==> forall i :: 0 <= i < |d| ==> d[i].0 != k
  {
    if d == [] then None
    else if d[0].0 == k then Some(d[0].1)
    else Lookup(d[1..], k)
  }

  /** The value the last entry with the key gives it. */
  function LastValue<V>(e: Table<V>, k: string): (r: Option<V>)
    ensures r.None? <==> forall i :: 0 <= i < |e| ==> e[i].0 != k
    ensures r.Some? ==> (k, r.value) in e
  {
    if e == [] then None
    else if e[|e| - 1].0 == k then Some(e[|e| - 1].1)
    else LastValue(e[..|e| - 1], k)
  }

  /** The index of the first entry with the key, or `|e|` when there is none. */
  function Position<V>(e: Table<V>, k: string): (r: nat)
    ensures r <= |e|
    ensures r < |e| ==> e[r].0 == k
    ensures forall j :: 0 <= j < r ==> e[j].0 != k
  {
    if e == [] then 0
    else if e[0].0 == k then 0
    else 1 + Position(e[1..], k)
  }

  /** `d[k] = v`: an existing key keeps its place and takes the new value, a new key goes last. */
  function Put<V>(d: Table<V>, k: string, v: V): (r: Table<V>)
    ensures Lookup(r, k) == Some(v)
    ensures forall k' :: k' != k ==> Lookup(r, k') == Lookup(d, k')
    ensures Lookup(d, k).Some? ==> |r| == |d| && forall i :: 0 <= i < |d| ==> r[i].0 == d[i].0
    ensures Lookup(d, k).None? ==> r == d + [(k, v)]
  {
    if d == [] then [(k, v)]
    else if d[0].0 == k then [(k, v)] + d[1..]
    else [d[0]] + Put(d[1..], k, v)
  }

  /** Adding one entry at the end does not move the first occurrence of a key already there. */
  lemma {:induction false} PositionSnoc<V>(e: Table<V>, x: (string, V), k: string)
    ensures Position(e, k) < |e| ==> Position(e + [x], k) == Position(e, k)
    ensures Position(e, k) == |e| ==> Position(e + [x], k) == (if x.0 == k then |e| else |e| + 1)
  {
    if e != [] {
      assert (e + [x])[1..] == e[1..] + [x];
      PositionSnoc(e[1..], x, k);
    }
  }

  /**
    Evaluating the dict literal: each entry is stored in turn, so every key gets the
    value of its last occurrence.
  */
  function BuildDict<V>(e: Table<V>): (r: Table<V>)
    ensures forall k :: Lookup(r, k) == LastValue(e, k)
  {
    if e == [] then []
    else Put(BuildDict(e[..|e| - 1]), e[|e| - 1].0, e[|e| - 1].1)
  }

  /** Storing a key never makes a key appear twice. */
  lemma {:induction false} PutUnique<V>(d: Table<V>, k: string, v: V)
    requires UniqueKeys(d)
    ensures UniqueKeys(Put(d, k, v))
  {
    var r := Put(d, k, v);
    if Lookup(d, k).None? {
      forall i, j | 0 <= i < j < |r| ensures r[i].0 != r[j].0 {
        if j == |d| {
          assert r[i] == d[i];
        }
      }
    }
  }

  /** The dict holds each key once. */
  lemma {:induction false} BuildDictUnique<V>(e: Table<V>)
    ensures UniqueKeys(BuildDict(e))
  {
    if e != [] {
      BuildDictUnique(e[..|e| - 1]);
      PutUnique(BuildDict(e[..|e| - 1]), e[|e| - 1].0, e[|e| - 1].1);
    }
  }

  /** Every key of `r` occurs in the literal `e`, and `r` lists them in the order of their first occurrence. */
  predicate InLiteralOrder<V>(e: Table<V>, r: Table<V>) {
    (forall i :: 0 <= i < |r| ==> Position(e, r[i].0) < |e|)
    && (forall i, j :: 0 <= i < j < |r| ==> Position(e, r[i].0) < Position(e, r[j].0))
  }

  /** Every key of the dict occurs in the literal, and the keys come in the order of their first occurrence. */
  lemma {:induction false} BuildDictOrder<V>(e: Table<V>)
    ensures InLiteralOrder(e, BuildDict(e))
  {
    if e != [] {
      var init := e[..|e| - 1];
      var x := e[|e| - 1];
      assert e == init + [x];
      var d := BuildDict(init);
      var r := BuildDict(e);
      BuildDictOrder(init);
      PositionsKept(init, x);
      if Lookup(d, x.0).Some? {
        assert r == Put(d, x.0, x.1);
        OrderSameKeys(init, x, d, r);
      } else {
        PositionSnoc(init, x, x.0);
        assert LastValue(init, x.0).None?;
        BuildDictNewKey(init, x);
        OrderNewKey(init, x, d);
      }
    }
  }

  /** Storing an existing key keeps the dict's keys, so their order is kept. */
  lemma OrderSameKeys<V>(init: Table<V>, x: (string, V), d: Table<V>, r: Table<V>)
    requires InLiteralOrder(init, d)
    requires forall k :: Position(init, k) < |init| ==> Position(init + [x], k) == Position(init, k)
    requires |r| == |d| && forall i :: 0 <= i < |d| ==> r[i].0 == d[i].0
    ensures InLiteralOrder(init + [x], r)
  {
    forall i | 0 <= i < |r| ensures Position(init + [x], r[i].0) == Position(init, d[i].0) < |init| {
    }
  }

  /** A key first seen at the end of the literal goes after every key already in the dict. */
  lemma OrderNewKey<V>(init: Table<V>, x: (string, V), d: Table<V>)
    requires InLiteralOrder(init, d)
    requires forall k :: Position(init, k) < |init| ==> Position(init + [x], k) == Position(init, k)
    requires Position(init + [x], x.0) == |init|
    ensures InLiteralOrder(init + [x], d + [x])
  {
    NewKeyOccurs(init, x, d);
    NewKeyLast(init, x, d);
  }

  /** Every key of the grown dict occurs in the grown literal. */
  lemma NewKeyOccurs<V>(init: Table<V>, x: (string, V), d: Table<V>)
    requires forall i :: 0 <= i < |d| ==> Position(init, d[i].0) < |init|
    requires forall k :: Position(init, k) < |init| ==> Position(init + [x], k) == Position(init, k)
    requires Position(init + [x], x.0) == |init|
    ensures forall i :: 0 <= i < |d + [x]| ==> Position(init + [x], (d + [x])[i].0) < |init + [x]|
  {
    forall i | 0 <= i < |d + [x]| ensures Position(init + [x], (d + [x])[i].0) < |init + [x]| {
      if i < |d| {
        assert (d + [x])[i] == d[i];
      }
    }
  }

  /** The grown dict still lists its keys in the order of their first occurrence. */
  lemma NewKeyLast<V>(init: Table<V>, x: (string, V), d: Table<V>)
    requires forall i :: 0 <= i < |d| ==> Position(init, d[i].0) < |init|
    requires forall i, j :: 0 <= i < j < |d| ==> Position(init, d[i].0) < Position(init, d[j].0)
    requires forall k :: Position(init, k) < |init| ==> Position(init + [x], k) == Position(init, k)
    requires Position(init + [x], x.0) == |init|
    ensures forall i, j :: 0 <= i < j < |d + [x]| ==> Position(init + [x], (d + [x])[i].0) < Position(init + [x], (d + [x])[j].0)
  {
    var rank := (k: string) => Position(init + [x], k);
    forall i | 0 <= i < |d| ensures rank(d[i].0) == Position(init, d[i].0) {
    }
    SnocRanked(d, x, rank, |init|);
  }

  /** Appending a key ranked after every key of a list ranked in increasing order keeps it in increasing order. */
  lemma SnocRanked<V>(d: Table<V>, x: (string, V), rank: string -> int, bound: int)
    requires forall i :: 0 <= i < |d| ==> rank(d[i].0) < bound
    requires forall i, j :: 0 <= i < j < |d| ==> rank(d[i].0) < rank(d[j].0)
    requires rank(x.0) == bound
    ensures forall i, j :: 0 <= i < j < |d + [x]| ==> rank((d + [x])[i].0) < rank((d + [x])[j].0)
  {
    var r := d + [x];
    forall i, j | 0 <= i < j < |r| ensures rank(r[i].0) < rank(r[j].0) {
      assert r[i] == d[i];
      if j < |d| {
        assert r[j] == d[j];
      }
    }
  }

  /** The first occurrences of the keys already in the literal stay where they are. */
  lemma PositionsKept<V>(init: Table<V>, x: (string, V))
    ensures forall k :: Position(init, k) < |init| ==> Position(init + [x], k) == Position(init, k)
  {
    forall k | Position(init, k) < |init| ensures Position(init + [x], k) == Position(init, k) {
      PositionSnoc(init, x, k);
    }
  }

  /** A key new to the literal goes last in the dict. */
  lemma BuildDictNewKey<V>(init: Table<V>, x: (string, V))
    requires Lookup(BuildDict(init), x.0).None?
    ensures BuildDict(init + [x]) == BuildDict(init) + [x]
  {
    assert (init + [x])[..|init|] == init;
  }

  /** The first key of the dict is the first key of the literal. */
  lemma BuildDictFirst<V>(e: Table<V>)
    requires e != []
    ensures |BuildDict(e)| >= 1 && BuildDict(e)[0].0 == e[0].0
  {
    var r := BuildDict(e);
    BuildDictOrder(e);
    assert LastValue(e, e[0].0).Some?;
    assert Lookup(r, e[0].0).Some?;
    var i :| 0 <= i < |r| && r[i].0 == e[0].0;
    assert Position(e, e[0].0) == 0;
  }

  /** The `responses` dict. */
  function Responses(): Table<nat> {
    BuildDict(Entries())
  }

  /** The line of the "Sorry, I don't understand that yet" text. */
  const DEFAULT_REPLY: nat := 187

  /** The line of the `Invalid request` text. */
  const INVALID_REQUEST: nat := 54

  /**
    The `for keyword, reply in responses.items()` loop: the value of the first key in
    table order that occurs in the message, or the fallback when none does.
  */
  function Reply<V>(d: Table<V>, msg: string, fallback: V): (r: V)
    ensures (forall i :: 0 <= i < |d| ==> !Contains(d[i].0, msg)) ==> r == fallback
    ensures forall i :: 0 <= i < |d| && Contains(d[i].0, msg) && (forall j :: 0 <= j < i ==> !Contains(d[j].0, msg))
                        ==> r == d[i].1
    ensures r == fallback || exists i :: 0 <= i < |d| && Contains(d[i].0, msg) && r == d[i].1
  {
    if d == [] then fallback
    else if Contains(d[0].0, msg) then d[0].1
    else
      var r := Reply(d[1..], msg, fallback);
      assert forall i :: 1 <= i < |d| ==> d[i] == d[1..][i - 1];
      r
  }

  /**
    `get_bot_reply`: the fallback, or the value that the literal gives last to a key
    occurring in the message.
  */
  function GetBotReply(msg: string): (r: nat)
    ensures r == DEFAULT_REPLY || exists k :: Contains(k, msg) && LastValue(Entries(), k) == Some(r)
  {
    ReplyFromLiteral(Entries(), msg, DEFAULT_REPLY);
    Reply(Responses(), msg, DEFAULT_REPLY)
  }

  /** With unique keys, looking up the key of entry `i` finds entry `i`'s value. */
  lemma {:induction false} LookupAt<V>(d: Table<V>, i: int)
    requires UniqueKeys(d) && 0 <= i < |d|
    ensures Lookup(d, d[i].0) == Some(d[i].1)
  {
    if i > 0 {
      assert d[0].0 != d[i].0;
      assert UniqueKeys(d[1..]) by {
        forall a, b | 0 <= a < b < |d[1..]|
          ensures d[1..][a].0 != d[1..][b].0
        {
          assert d[1..][a] == d[a + 1] && d[1..][b] == d[b + 1];
        }
      }
      LookupAt(d[1..], i - 1);
    }
  }

  /** A reply other than the fallback is the last value of a key of the literal that occurs in the message. */
  lemma ReplyFromLiteral<V>(e: Table<V>, msg: string, fallback: V)
    ensures var r := Reply(BuildDict(e), msg, fallback);
            r == fallback || exists k :: Contains(k, msg) && LastValue(e, k) == Some(r)
  {
    var d := BuildDict(e);
    var r := Reply(d, msg, fallback);
    if r != fallback {
      var i :| 0 <= i < |d| && Contains(d[i].0, msg) && r == d[i].1;
      BuildDictUnique(e);
      LookupAt(d, i);
      assert LastValue(e, d[i].0) == Some(r);
    }
  }

  /**
    `chatbot_response`: a POST has its `message` (empty when absent) lowercased and
    answered with status 200; any other method gets `Invalid request` with status 400.
  */
  function ChatbotResponse(httpMethod: string, message: Option<string>): (r: (nat, int))
    ensures httpMethod != "POST" ==> r == (INVALID_REQUEST, 400)
    ensures httpMethod == "POST" ==>
              r.1 == 200 && r.0 == GetBotReply(LowerString(if message.Some? then message.value else ""))
  {
    if httpMethod == "POST" then
      var msg := if message.Some? then message.value else "";
      (GetBotReply(LowerString(msg)), 200)
    else (INVALID_REQUEST, 400)
  }

  /** A message containing the literal's first key gets that key's value, whatever else it contains. */
  lemma FirstKeyShadows<V>(e: Table<V>, msg: string, fallback: V)
    requires e != [] && Contains(e[0].0, msg)
    ensures Some(Reply(BuildDict(e), msg, fallback)) == LastValue(e, e[0].0)
  {
    var r := BuildDict(e);
    BuildDictFirst(e);
    assert Reply(r, msg, fallback) == r[0].1;
    assert Lookup(r, e[0].0) == Some(r[0].1);
  }

  /**
    'hi' is the table's first key, so every message containing "hi" gets the value of
    'hi', whatever else it mentions.
  */
  lemma GreetingShadows(msg: string)
    requires Contains("hi", msg)
    ensures Some(GetBotReply(msg)) == LastValue(Entries(), "hi")
  {
    var e := Entries();
    assert e[0] == ("hi", 59);
    FirstKeyShadows(e, msg, DEFAULT_REPLY);
  }

  /** "chicken" contains "hi", so it gets the greeting, the same reply as "hi" itself. */
  lemma ChickenIsGreeted()
    ensures GetBotReply("chicken") == GetBotReply("hi")
  {
    HiOccursIn("chicken", 1);
    HiOccursIn("hi", 0);
    GreetingShadows("chicken");
    GreetingShadows("hi");
  }

  /** A message with "hi" at index `i` contains "hi". */
  lemma HiOccursIn(msg: string, i: nat)
    requires i + 2 <= |msg| && msg[i] == 'h' && msg[i + 1] == 'i'
    ensures Contains("hi", msg)
  {
    assert OccursAt("hi", msg, i);
  }

  /**
    The literal rule on a table shaped like the 'food' entries: a key, another key,
    then the first key again gives the first key, with its second value, before the other.
  */
  lemma RepeatedKeyExample<V>(k: string, other: string, first: V, between: V, last: V)
    requires k != other
    ensures BuildDict([(k, first), (other, between), (k, last)]) == [(k, last), (other, between)]
  {
    var e2 := [(k, first), (other, between)];
    assert e2 + [(k, last)] == [(k, first), (other, between), (k, last)];
    TwoKeyDict(k, other, first, between);
    BuildDictSnoc(e2, (k, last));
    assert Put(e2, k, last) == [(k, last)] + e2[1..];
  }

  /** A literal of two distinct keys gives a dict of the same two entries. */
  lemma TwoKeyDict<V>(k: string, other: string, first: V, between: V)
    requires k != other
    ensures BuildDict([(k, first), (other, between)]) == [(k, first), (other, between)]
  {
    var e1 := [(k, first)];
    assert [] + [(k, first)] == e1;
    assert e1 + [(other, between)] == [(k, first), (other, between)];
    BuildDictSnoc([], (k, first));
    BuildDictSnoc(e1, (other, between));
    assert Put([], k, first) == e1;
    assert Put(e1, other, between) == [(k, first)] + Put([], other, between);
  }

  /** Evaluating one more entry of the literal stores it in the dict built so far. */
  lemma BuildDictSnoc<V>(e: Table<V>, x: (string, V))
    ensures BuildDict(e + [x]) == Put(BuildDict(e), x.0, x.1)
  {
    assert (e + [x])[..|e|] == e;
  }

  /** Applying `str.lower()` twice is applying it once. */
  lemma {:induction false} LowerStringIdempotent(s: string)
    ensures LowerString(LowerString(s)) == LowerString(s)
  {
    if s != [] {
      LowerStringIdempotent(s[1..]);
    }
  }

  /** The view lowercases the message, so its case never changes the reply. */
  lemma CaseNeverMatters(message: string)
    ensures ChatbotResponse("POST", Some(message)) == ChatbotResponse("POST", Some(LowerString(message)))
  {
    LowerStringIdempotent(message);
  }
}
