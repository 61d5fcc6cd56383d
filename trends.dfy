/** The anti-JSON-hijacking guard removed from the Google Trends answer before
    it is decoded (main.py `trending_matches`: `pageSoup.lstrip(")]}',\n")`). */
module Trends {
  import opened PyStr

  /** The six characters of the `lstrip` argument. */
  const GuardChars: set<char> := {')', ']', '}', '\'', ',', '\n'}

  /** The literal prefix the endpoint puts in front of its JSON. */
  const Guard: string := ")]}',\n"

  /** The payload with every leading guard character removed: a suffix of the
      payload that does not start with a guard character, everything dropped
      being one. */
  function StripGuard(payload: string): (r: string)
    ensures |r| <= |payload| && r == payload[|payload| - |r|..]
    ensures r == [] || r[0] !in GuardChars
    ensures forall i :: 0 <= i < |payload| - |r| ==> payload[i] in GuardChars
  {
    TrimStartSpec(payload, GuardChars);
    TrimStart(payload, GuardChars)
  }

  /** A payload that does not start with a guard character is left alone. */
  lemma {:induction false} StripGuardKeeps(payload: string)
    requires payload == [] || payload[0] !in GuardChars
    ensures StripGuard(payload) == payload
  {
  }

  /** Stripping twice is stripping once. */
  lemma {:induction false} StripGuardIdempotent(payload: string)
    ensures StripGuard(StripGuard(payload)) == StripGuard(payload)
  {
    StripGuardKeeps(StripGuard(payload));
  }

  /** The guard in front of a JSON text (which starts with `{`, `[`, a
      quote, a digit or a letter, never with a guard character) is removed
      exactly. */
  lemma {:induction false} StripGuardRemovesGuard(body: string)
    requires body == [] || body[0] !in GuardChars
    ensures StripGuard(Guard + body) == body
  {
    var s := Guard + body;
    assert s[1..] == "]}',\n" + body;
    assert s[2..] == "}',\n" + body;
    assert s[3..] == "',\n" + body;
    assert s[4..] == ",\n" + body;
    assert s[5..] == "\n" + body;
    assert s[6..] == body;
  }
}
