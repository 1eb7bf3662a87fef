/**
 * The save-game "pattern" protocol, at the level of the items it moves.
 *
 * The Loader and Saver classes of the program are not part of this model;
 * what the entities rely on is their collaborator interface: a pattern is
 * opened with a tag and a version, closed, and holds bytes, 16-bit words,
 * 32-bit longs and texts in between. The stream is therefore modelled as a
 * sequence of tokens, one per call of that interface. A loader call that
 * finds a different token than it asks for raises a loading error.
 */
module PatternStream {
  import opened LoadErrors

  type uint8 = x: nat | x < 0x100
  type uint16 = x: nat | x < 0x1_0000
  type uint32 = x: nat | x < 0x1_0000_0000

  /** A C++ conversion to a 16-bit unsigned field: the value modulo 2^16. */
  function Trunc16(x: int): (r: uint16)
    ensures 0 <= x < 0x1_0000 ==> r == x
  {
    x % 0x1_0000
  }

  /** A C++ conversion to a 32-bit unsigned field: the value modulo 2^32. */
  function Trunc32(x: int): (r: uint32)
    ensures 0 <= x < 0x1_0000_0000 ==> r == x
  {
    x % 0x1_0000_0000
  }

  datatype Token =
    | Start(tag: string, version: uint32)
    | End
    | Byte(b: uint8)
    | Word(w: uint16)
    | Long(l: uint32)
    | Text(s: string)

  /** A decoded value together with the position just after it. */
  type Decoded<T> = Result<(T, nat)>

  /** The value part of a decoding, dropping the position. */
  function ValueOf<T>(d: Decoded<T>): Result<T>
  {
    match d
    case Ok(vp) => Ok(vp.0)
    case Err(e) => Err(e)
  }

  /** Opening a pattern: the version stored with a start token of the wanted tag. */
  function ReadStart(ts: seq<Token>, pos: nat, tag: string): (d: Decoded<uint32>)
    ensures d.Ok? <==> pos < |ts| && ts[pos].Start? && ts[pos].tag == tag
    ensures d.Ok? ==> d.value == (ts[pos].version, pos + 1)
  {
    if pos < |ts| && ts[pos].Start? && ts[pos].tag == tag then Ok((ts[pos].version, pos + 1))
    else Err(StreamMismatch(pos))
  }

  function ReadEnd(ts: seq<Token>, pos: nat): (d: Decoded<()>)
    ensures d.Ok? <==> pos < |ts| && ts[pos] == End
    ensures d.Ok? ==> d.value.1 == pos + 1
  {
    if pos < |ts| && ts[pos].End? then Ok(((), pos + 1)) else Err(StreamMismatch(pos))
  }

  function ReadByte(ts: seq<Token>, pos: nat): (d: Decoded<uint8>)
    ensures d.Ok? <==> pos < |ts| && ts[pos].Byte?
    ensures d.Ok? ==> d.value == (ts[pos].b, pos + 1)
  {
    if pos < |ts| && ts[pos].Byte? then Ok((ts[pos].b, pos + 1)) else Err(StreamMismatch(pos))
  }

  function ReadWord(ts: seq<Token>, pos: nat): (d: Decoded<uint16>)
    ensures d.Ok? <==> pos < |ts| && ts[pos].Word?
    ensures d.Ok? ==> d.value == (ts[pos].w, pos + 1)
  {
    if pos < |ts| && ts[pos].Word? then Ok((ts[pos].w, pos + 1)) else Err(StreamMismatch(pos))
  }

  function ReadLong(ts: seq<Token>, pos: nat): (d: Decoded<uint32>)
    ensures d.Ok? <==> pos < |ts| && ts[pos].Long?
    ensures d.Ok? ==> d.value == (ts[pos].l, pos + 1)
  {
    if pos < |ts| && ts[pos].Long? then Ok((ts[pos].l, pos + 1)) else Err(StreamMismatch(pos))
  }

  function ReadText(ts: seq<Token>, pos: nat): (d: Decoded<string>)
    ensures d.Ok? <==> pos < |ts| && ts[pos].Text?
    ensures d.Ok? ==> d.value == (ts[pos].s, pos + 1)
  {
    if pos < |ts| && ts[pos].Text? then Ok((ts[pos].s, pos + 1)) else Err(StreamMismatch(pos))
  }

  /** Reading a token of the kind just written gives the written value back. */
  lemma ReadWritten(prefix: seq<Token>, t: Token, rest: seq<Token>)
    ensures var ts := prefix + [t] + rest;
            var p := |prefix|;
            (t.Start? ==> ReadStart(ts, p, t.tag) == Ok((t.version, p + 1)))
            && (t.End? ==> ReadEnd(ts, p) == Ok(((), p + 1)))
            && (t.Byte? ==> ReadByte(ts, p) == Ok((t.b, p + 1)))
            && (t.Word? ==> ReadWord(ts, p) == Ok((t.w, p + 1)))
            && (t.Long? ==> ReadLong(ts, p) == Ok((t.l, p + 1)))
            && (t.Text? ==> ReadText(ts, p) == Ok((t.s, p + 1)))
  {
    assert (prefix + [t] + rest)[|prefix|] == t;
  }

  /** The save side: every call appends the token it writes. */
  class Saver {
    var output: seq<Token>
    /** Number of patterns started and not yet ended. */
    ghost var depth: nat

    constructor ()
      ensures output == [] && depth == 0
    {
      output := [];
      depth := 0;
    }

    method StartPattern(tag: string, version: uint32)
      modifies this
      ensures output == old(output) + [Start(tag, version)]
      ensures depth == old(depth) + 1
    {
      output := output + [Start(tag, version)];
      depth := depth + 1;
    }

    /** Ending a pattern that was never started is a programming error. */
    method EndPattern()
      requires depth > 0
      modifies this
      ensures output == old(output) + [End]
      ensures depth == old(depth) - 1
    {
      output := output + [End];
      depth := depth - 1;
    }

    method PutByte(val: uint8)
      modifies this`output
      ensures output == old(output) + [Byte(val)]
    {
      output := output + [Byte(val)];
    }

    method PutWord(val: uint16)
      modifies this`output
      ensures output == old(output) + [Word(val)]
    {
      output := output + [Word(val)];
    }

    method PutLong(val: uint32)
      modifies this`output
      ensures output == old(output) + [Long(val)]
    {
      output := output + [Long(val)];
    }

    method PutText(str: string)
      modifies this`output
      ensures output == old(output) + [Text(str)]
    {
      output := output + [Text(str)];
    }
  }

  /** The load side: a cursor over a saved token stream. */
  class Loader {
    const input: seq<Token>
    var pos: nat
    /** Number of patterns opened and not yet closed. */
    ghost var depth: nat

    /** The cursor never passes the end of the stream. */
    predicate Valid()
      reads this
    {
      pos <= |input|
    }

    constructor (saved: seq<Token>)
      ensures Valid() && input == saved && pos == 0 && depth == 0
    {
      input := saved;
      pos := 0;
      depth := 0;
    }

    /** Opens a pattern of the given tag and returns its stored version. */
    method OpenPattern(tag: string) returns (r: Result<uint32>)
      requires Valid()
      modifies this
      ensures r == ValueOf(ReadStart(input, old(pos), tag))
      ensures r.Ok? ==> pos == ReadStart(input, old(pos), tag).value.1 && depth == old(depth) + 1
      ensures Valid()
      ensures r.Err? ==> pos == old(pos) && depth == old(depth)
    {
      var d := ReadStart(input, pos, tag);
      if d.Err? {
        return Err(d.error);
      }
      pos := d.value.1;
      depth := depth + 1;
      return Ok(d.value.0);
    }

    /** Closing a pattern that was never opened is a programming error. */
    method ClosePattern() returns (o: Outcome)
      requires Valid() && depth > 0
      modifies this
      ensures o.Pass? <==> ReadEnd(input, old(pos)).Ok?
      ensures o.Fail? ==> o.error == ReadEnd(input, old(pos)).error
      ensures o.Pass? ==> pos == old(pos) + 1 && depth == old(depth) - 1
      ensures Valid()
      ensures o.Fail? ==> pos == old(pos) && depth == old(depth)
    {
      var d := ReadEnd(input, pos);
      if d.Err? {
        return Fail(d.error);
      }
      pos := d.value.1;
      depth := depth - 1;
      return Pass;
    }

    method GetByte() returns (r: Result<uint8>)
      requires Valid()
      modifies this`pos
      ensures r == ValueOf(ReadByte(input, old(pos)))
      ensures r.Ok? ==> pos == old(pos) + 1
      ensures Valid()
      ensures r.Err? ==> pos == old(pos) && depth == old(depth)
    {
      var d := ReadByte(input, pos);
      if d.Err? {
        return Err(d.error);
      }
      pos := d.value.1;
      return Ok(d.value.0);
    }

    method GetWord() returns (r: Result<uint16>)
      requires Valid()
      modifies this`pos
      ensures r == ValueOf(ReadWord(input, old(pos)))
      ensures r.Ok? ==> pos == old(pos) + 1
      ensures Valid()
      ensures r.Err? ==> pos == old(pos) && depth == old(depth)
    {
      var d := ReadWord(input, pos);
      if d.Err? {
        return Err(d.error);
      }
      pos := d.value.1;
      return Ok(d.value.0);
    }

    method GetLong() returns (r: Result<uint32>)
      requires Valid()
      modifies this`pos
      ensures r == ValueOf(ReadLong(input, old(pos)))
      ensures r.Ok? ==> pos == old(pos) + 1
      ensures Valid()
      ensures r.Err? ==> pos == old(pos) && depth == old(depth)
    {
      var d := ReadLong(input, pos);
      if d.Err? {
        return Err(d.error);
      }
      pos := d.value.1;
      return Ok(d.value.0);
    }

    method GetText() returns (r: Result<string>)
      requires Valid()
      modifies this`pos
      ensures r == ValueOf(ReadText(input, old(pos)))
      ensures r.Ok? ==> pos == old(pos) + 1
      ensures Valid()
      ensures r.Err? ==> pos == old(pos) && depth == old(depth)
    {
      var d := ReadText(input, pos);
      if d.Err? {
        return Err(d.error);
      }
      pos := d.value.1;
      return Ok(d.value.0);
    }
  }

  /** The fatal error for a pattern version newer than the code understands. */
  function RejectVersion<T>(found: uint32, supported: uint32): (r: Result<T>)
    requires found > supported
    ensures r.Err? && r.error.VersionMismatch? && r.error.found > r.error.supported
  {
    Err(LoadingError.VersionMismatch(found, supported))
  }
}
