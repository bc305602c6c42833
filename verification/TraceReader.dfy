/** Reading trace files line by line. */
module TraceReader {
  import opened Records
  import opened TraceFiles

  /** `rs` are the records of the leading lines of `lines`. */
  ghost predicate DecodesPrefix(dec: string -> Option<Record>, lines: seq<string>, rs: seq<Record>) {
    |rs| <= |lines| && forall i :: 0 <= i < |rs| ==> dec(lines[i]) == Some(rs[i])
  }

  /** All the lines decode, or the first that does not is the next one. */
  ghost predicate ReadUntil(dec: string -> Option<Record>, lines: seq<string>, rs: seq<Record>, raised: bool) {
    && DecodesPrefix(dec, lines, rs)
    && if raised then |rs| < |lines| && dec(lines[|rs|]).None? else |rs| == |lines|
  }

  lemma ReadOn(dec: string -> Option<Record>, a: seq<string>, b: seq<string>, rs: seq<Record>, more: seq<Record>,
               raised: bool)
    requires ReadUntil(dec, a, rs, false) && ReadUntil(dec, b, more, raised)
    ensures ReadUntil(dec, a + b, rs + more, raised)
  {
  }

  lemma StopEarly(dec: string -> Option<Record>, lines: seq<string>, all: seq<string>, rs: seq<Record>)
    requires ReadUntil(dec, lines, rs, true) && lines <= all
    ensures ReadUntil(dec, all, rs, true)
  {
  }

  lemma ReadOne(dec: string -> Option<Record>, lines: seq<string>, line: string, rs: seq<Record>)
    requires ReadUntil(dec, lines, rs, false)
    ensures if dec(line).None? then ReadUntil(dec, lines + [line], rs, true)
            else ReadUntil(dec, lines + [line], rs + [dec(line).value], false)
  {
  }

  method ReadFile(text: string, dec: string -> Option<Record>) returns (rs: seq<Record>, raised: bool)
    ensures ReadUntil(dec, Stripped(Lines(text)), rs, raised)
  {
    rs, raised := [], false;
    var lines, j := Lines(text), 0;
    while j < |lines|
      invariant 0 <= j <= |lines| && !raised && ReadUntil(dec, Stripped(lines[..j]), rs, false)
    {
      var line := Strip(lines[j]);
      assert lines[..j + 1][..j] == lines[..j];
      if line != "" {
        var r := dec(line);
        ReadOne(dec, Stripped(lines[..j]), line, rs);
        if r.None? {
          StrippedExtends(lines, j + 1);
          StopEarly(dec, Stripped(lines[..j + 1]), Stripped(lines), rs);
          return rs, true;
        }
        rs := rs + [r.value];
      } else {
        assert Stripped(lines[..j]) + [] == Stripped(lines[..j]);
      }
      j := j + 1;
    }
    assert lines[..j] == lines;
  }

  /**
   The records of the non-blank lines of all files, in order, up to the first
   line that does not decode, where reading raises.
   */
  method IterRecords(files: seq<string>, dec: string -> Option<Record>) returns (rs: seq<Record>, raised: bool)
    ensures ReadUntil(dec, ReadBack(files), rs, raised)
  {
    rs, raised := [], false;
    var i := 0;
    while i < |files|
      invariant 0 <= i <= |files| && !raised && ReadUntil(dec, ReadBack(files[..i]), rs, false)
    {
      assert files[..i + 1][..i] == files[..i];
      ReadBackExtends(files, i + 1);
      var more;
      more, raised := ReadFile(files[i], dec);
      ReadOn(dec, ReadBack(files[..i]), Stripped(Lines(files[i])), rs, more, raised);
      rs := rs + more;
      if raised {
        StopEarly(dec, ReadBack(files[..i + 1]), ReadBack(files), rs);
        return;
      }
      i := i + 1;
    }
    assert files[..i] == files;
  }

  lemma {:induction false} StrippedExtends(lines: seq<string>, k: nat)
    requires k <= |lines|
    ensures Stripped(lines[..k]) <= Stripped(lines)
    decreases |lines| - k
  {
    if k < |lines| {
      StrippedExtends(lines, k + 1);
      assert lines[..k + 1][..k] == lines[..k];
    } else {
      assert lines[..k] == lines;
    }
  }

  lemma {:induction false} ReadBackExtends(files: seq<string>, k: nat)
    requires k <= |files|
    ensures ReadBack(files[..k]) <= ReadBack(files)
    decreases |files| - k
  {
    if k < |files| {
      ReadBackExtends(files, k + 1);
      assert files[..k + 1][..k] == files[..k];
    } else {
      assert files[..k] == files;
    }
  }
}
