/** Text as CRLF-ended lines. */
module Lines {
  import opened Bytes

  function Join(lines: seq<seq<byte>>): seq<byte> {
    if lines == [] then [] else Join(Front(lines)) + Last(lines) + CRLF
  }

  lemma JoinPush(lines: seq<seq<byte>>, line: seq<byte>)
    ensures Join(lines + [line]) == Join(lines) + (line + CRLF)
  {
    assert Front(lines + [line]) == lines;
    assert Last(lines + [line]) == line;
  }

  /** How many CRs s ends in. */
  function CrRun(s: seq<byte>): nat {
    if s != [] && Last(s) == CR then 1 + CrRun(Front(s)) else 0
  }

  /** What comes before those CRs. */
  function BeforeCrs(s: seq<byte>): (r: seq<byte>)
    ensures |r| == |s| - CrRun(s) && r <= s && (r != [] ==> Last(r) != CR)
  {
    if s != [] && Last(s) == CR then BeforeCrs(Front(s)) else s
  }

  /** What comes before the dots that s ends in. */
  function BeforeDots(s: seq<byte>): (r: seq<byte>)
    ensures r <= s
  {
    if s != [] && Last(s) == DOT then BeforeDots(Front(s)) else s
  }
}
