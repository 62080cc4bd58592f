/** The name of the generated document: `index`, or `index` stamped with the
    local date and time so that an existing document is not overwritten. */
module Naming {
  import opened JsText

  const DefaultOutputFilename: string := "index"

  /** A locale date or time string made safe for a file name: the path separator
      becomes `.` and each run of whitespace `-`. */
  function Stamp(s: string): (r: string)
    ensures '/' !in r
    ensures forall i :: 0 <= i < |r| ==> !IsJsSpace(r[i])
  {
    var dotted := ReplaceChar(s, '/', '.');
    assert '/' !in dotted;
    ReplaceSpaceRuns(dotted, '-')
  }

  /** `index_<date>_<time>`. */
  function StampedName(date: string, time: string): (name: string)
    ensures StartsWith(name, DefaultOutputFilename + "_") && name != DefaultOutputFilename
    ensures '/' !in name
    ensures name == DefaultOutputFilename + "_" + Stamp(date) + "_" + Stamp(time)
  {
    var name := DefaultOutputFilename + "_" + Stamp(date) + "_" + Stamp(time);
    assert name[..6] == DefaultOutputFilename + "_";
    assert |name| != 5;
    name
  }
}
