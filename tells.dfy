/**
 * The tell registry: a map from tell key to `{text, ttl}`. Every processed
 * frame decrements each entry's ttl and drops the entries that reach zero.
 */
module Tells {
  import opened Options

  /**
   * What a tell displays. The detectors' fixed messages are strings; the heart
   * rate display `f"BPM: {bpm:.2f}"` / `"BPM: ..."` is kept as the value it
   * renders, since float formatting is not modelled.
   */
  datatype TellText = Message(msg: string) | BpmReading(bpm: Option<real>)

  /** One registry entry, the dictionary `{'text': ..., 'ttl': ...}`. */
  datatype Tell = Tell(text: TellText, ttl: int)

  /**
   * `new_tell`: an entry that lives for `ttl` more frames. On its own in a
   * registry it is shown with ttl `ttl - j` after `j < ttl` decays, and is gone
   * after `ttl` of them.
   */
  function NewTell(text: TellText, ttl: int): (r: Tell)
    ensures r.text == text
    ensures forall j: nat :: j < ttl ==> DecayN(map[0 := r], j) == map[0 := Tell(text, ttl - j)]
    ensures ttl >= 1 ==> DecayN(map[0 := r], ttl as nat) == map[]
  {
    SingleTellLifetime(Tell(text, ttl));
    Tell(text, ttl)
  }

  /** The registry after one `decrement_tells` pass. */
  function Decremented<K>(m: map<K, Tell>): (r: map<K, Tell>)
    ensures r.Keys <= m.Keys
    ensures forall k :: k in m ==> (k in r <==> m[k].ttl > 1)
    ensures forall k :: k in r ==> r[k].text == m[k].text && r[k].ttl == m[k].ttl - 1 >= 1
  {
    map k | k in m && m[k].ttl - 1 > 0 :: Tell(m[k].text, m[k].ttl - 1)
  }

  /** `decrement_tells`: walks a copy of the keys, decrementing and deleting in the registry. */
  method DecrementTells<K>(tells: map<K, Tell>) returns (r: map<K, Tell>)
    ensures r == Decremented(tells)
  {
    r := tells;
    var todo := tells.Keys;
    while todo != {}
      invariant todo <= tells.Keys && r.Keys <= tells.Keys
      invariant forall k :: k in todo ==> k in r && r[k] == tells[k]
      invariant forall k :: k in tells && k !in todo ==> (k in r <==> tells[k].ttl > 1)
      invariant forall k :: k in r && k !in todo ==> r[k] == Tell(tells[k].text, tells[k].ttl - 1)
      decreases |todo|
    {
      var key :| key in todo;
      var tell := r[key].(ttl := r[key].ttl - 1);
      if tell.ttl <= 0 {
        r := r - {key};
      } else {
        r := r[key := tell];
      }
      todo := todo - {key};
    }
    assert r.Keys == Decremented(tells).Keys;
  }

  /** The registry after `n` frames with no refresh. */
  function DecayN<K>(m: map<K, Tell>, n: nat): map<K, Tell> {
    if n == 0 then m else Decremented(DecayN(m, n - 1))
  }

  /** An entry with `j` frames of life left after `j` decays still holds its text and counts its ttl down. */
  lemma {:induction false} DecayNCountsDown<K>(m: map<K, Tell>, k: K, j: nat)
    requires k in m && j < m[k].ttl
    ensures k in DecayN(m, j) && DecayN(m, j)[k] == Tell(m[k].text, m[k].ttl - j)
  {
    if j > 0 {
      DecayNCountsDown(m, k, j - 1);
    }
  }

  /**
   * A tell set with ttl `n` and not refreshed is still shown, with ttl 1,
   * after `n - 1` frames, and is gone after `n`.
   */
  lemma TellLifetime<K>(m: map<K, Tell>, k: K, text: TellText, n: int)
    requires n >= 1
    ensures var refreshed := m[k := NewTell(text, n)];
      k in DecayN(refreshed, n - 1) && DecayN(refreshed, n - 1)[k] == NewTell(text, 1) && k !in DecayN(refreshed, n)
  {
    EntryLifetime(m, k, Tell(text, n));
  }

  /** `TellLifetime` for an entry given as a value. */
  lemma EntryLifetime<K>(m: map<K, Tell>, k: K, t: Tell)
    requires t.ttl >= 1
    ensures var refreshed := m[k := t];
      k in DecayN(refreshed, t.ttl - 1) && DecayN(refreshed, t.ttl - 1)[k] == Tell(t.text, 1)
      && k !in DecayN(refreshed, t.ttl)
  {
    DecayNCountsDown(m[k := t], k, t.ttl - 1);
  }

  /** A registry holding one entry counts it down and then empties. */
  lemma SingleTellLifetime(t: Tell)
    ensures forall j: nat :: j < t.ttl ==> DecayN(map[0 := t], j) == map[0 := Tell(t.text, t.ttl - j)]
    ensures t.ttl >= 1 ==> DecayN(map[0 := t], t.ttl as nat) == map[]
  {
    var m := map[0 := t];
    forall j: nat | j < t.ttl
      ensures DecayN(m, j) == map[0 := Tell(t.text, t.ttl - j)]
    {
      DecayNCountsDown(m, 0, j);
      DecayNNeverAdds(m, j);
      assert DecayN(m, j).Keys == {0};
    }
    if t.ttl >= 1 {
      var last := DecayN(m, (t.ttl - 1) as nat);
      assert last == map[0 := Tell(t.text, 1)];
      assert Decremented(last).Keys == {};
    }
  }

  /** A key absent from the registry stays absent however many frames decay it. */
  lemma {:induction false} DecayNNeverAdds<K>(m: map<K, Tell>, n: nat)
    ensures DecayN(m, n).Keys <= m.Keys
  {
    if n > 0 {
      DecayNNeverAdds(m, n - 1);
    }
  }
}
