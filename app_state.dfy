/**
 * The web app's shared state: a dict of the latest sensor values, updated
 * by merging in new entries and read back as a copy. The lock that
 * serialises the two is not modelled; each call is one atomic step.
 */
module AppState {
  /** A JSON-like value held in the state: None, a flag, a number or a text. */
  datatype Value = Null | Flag(b: bool) | Number(x: real) | Text(s: string)

  /** The keys the state starts with. */
  const InitialKeys: set<string> :=
    {"sensor_ready", "last_update", "uptime", "turbidity", "temperature", "total_dissolved_solids", "pH"}

  /** The state at start-up: not ready, and every reading None. */
  function Initial(): (s: map<string, Value>)
    ensures s.Keys == InitialKeys
    ensures s["sensor_ready"] == Flag(false)
    ensures forall k :: k in s && k != "sensor_ready" ==> s[k] == Null
  {
    map["sensor_ready" := Flag(false), "last_update" := Null, "uptime" := Null,
        "turbidity" := Null, "temperature" := Null, "total_dissolved_solids" := Null, "pH" := Null]
  }

  /**
   * `dict.update`: every entry of `d` is taken over, replacing the old
   * value of a key already present, and every other key keeps its value.
   */
  function Update(s: map<string, Value>, d: map<string, Value>): (r: map<string, Value>)
    ensures r.Keys == s.Keys + d.Keys
    ensures forall k :: k in d ==> r[k] == d[k]
    ensures forall k :: k in s && k !in d ==> r[k] == s[k]
  {
    s + d
  }

  /** Updating with nothing changes nothing. */
  lemma UpdateEmpty(s: map<string, Value>)
    ensures Update(s, map[]) == s
  {
    assert Update(s, map[]).Keys == s.Keys;
  }

  /** Applying the same update twice is the same as applying it once. */
  lemma UpdateIdempotent(s: map<string, Value>, d: map<string, Value>)
    ensures Update(Update(s, d), d) == Update(s, d)
  {
    var once := Update(s, d);
    assert Update(once, d).Keys == once.Keys;
  }

  /** Two successive updates are one update with their merge, the later one winning. */
  lemma UpdateTwice(s: map<string, Value>, d: map<string, Value>, e: map<string, Value>)
    ensures Update(Update(s, d), e) == Update(s, Update(d, e))
  {
    var left, right := Update(Update(s, d), e), Update(s, Update(d, e));
    assert left.Keys == right.Keys;
    forall k | k in left
      ensures left[k] == right[k]
    {
    }
  }

  /** Updates never remove a key: from start-up on, the seven initial keys are always present. */
  lemma UpdateKeepsInitialKeys(s: map<string, Value>, d: map<string, Value>)
    requires InitialKeys <= s.Keys
    ensures InitialKeys <= Update(s, d).Keys
  {
  }

  /** The guarded module-level dict. */
  class State {
    var state: map<string, Value>

    constructor()
      ensures state == Initial()
    {
      state := Initial();
    }

    /** `update_state`. */
    method UpdateState(newData: map<string, Value>)
      modifies this
      ensures state == Update(old(state), newData)
    {
      state := state + newData;
    }

    /** `get_state`: a copy, so the caller cannot change the shared dict through it. */
    method GetState() returns (copy: map<string, Value>)
      ensures copy == state
    {
      copy := state;
    }
  }
}
