/** Splitting of repository paths. */
module PosixPaths {

  /** The parts of `s` between slashes. */
  function Segments(s: string): (r: seq<string>)
    ensures r != []
  {
    if s == "" then [""]
    else
      var rest := Segments(s[1..]);
      if s[0] == '/' then [""] + rest else [[s[0]] + rest[0]] + rest[1..]
  }

  function Join(parts: seq<string>): string
    requires parts != []
  {
    if |parts| == 1 then parts[0] else parts[0] + "/" + Join(parts[1..])
  }

  /** The parts have no slash, and with slashes between them they are the text again. */
  lemma {:induction false} SegmentsJoin(s: string)
    ensures Join(Segments(s)) == s && forall i :: 0 <= i < |Segments(s)| ==> '/' !in Segments(s)[i]
  {
    if s != "" {
      SegmentsJoin(s[1..]);
      var rest, all := Segments(s[1..]), Segments(s);
      if s[0] == '/' {
        assert all[1..] == rest && Join(all) == "" + "/" + Join(rest);
      } else {
        assert all[1..] == rest[1..] && all[0] == [s[0]] + rest[0];
        assert Join(all) == [s[0]] + Join(rest);
      }
      assert s == [s[0]] + s[1..];
    }
  }
}
