/**
 * A buffer of tokens meant for a parser, with a cursor into it: look-ahead,
 * consumption, and consumption guarded by a predicate. No parser in the
 * repository uses it yet.
 */
module TokenStreams {
  import opened Wrappers
  import opened Tokens

  class TokenStream {
    /** All tokens, consumed or not. */
    var buffer: seq<Token>

    /** Index of the next token to hand out; at or past the end when none is left. */
    var pos: nat

    /**
     * The cursor never passes the end of the buffer: the constructor
     * establishes it and consuming keeps it (both fields are public, so other
     * code may still break it, and every operation also handles that case).
     */
    ghost predicate Valid()
      reads this
    {
      pos <= |buffer|
    }

    constructor (tokens: seq<Token>)
      ensures Valid()
      ensures buffer == tokens && pos == 0
      ensures Rest() == tokens
    {
      buffer := tokens;
      pos := 0;
    }

    /** The tokens not yet consumed. */
    function Rest(): (rest: seq<Token>)
      reads this
      ensures |rest| == if pos <= |buffer| then |buffer| - pos else 0
      ensures forall k :: 0 <= k < |rest| ==> rest[k] == buffer[pos + k]
    {
      if pos <= |buffer| then buffer[pos..] else []
    }

    /** The `n`th token ahead, which is the `n`th of the unconsumed tokens, if there is one. */
    function Peek(n: nat): (r: Option<Token>)
      reads this
      ensures r.Some? <==> n < |Rest()|
      ensures r.Some? ==> r.value == Rest()[n]
    {
      if pos + n < |buffer| then Some(buffer[pos + n]) else None
    }

    /**
     * Hands out the next token and steps past it; at the end of the buffer it
     * yields `None` and changes nothing.
     */
    method Next() returns (r: Option<Token>)
      modifies this`pos
      ensures old(Valid()) ==> Valid()
      ensures r == old(Peek(0))
      ensures pos == if old(pos) < |buffer| then old(pos) + 1 else old(pos)
      ensures r.Some? ==> [r.value] + Rest() == old(Rest())
      ensures r.None? ==> Rest() == old(Rest()) == []
      ensures r.Some? ==> forall n: nat :: Peek(n) == old(Peek(n + 1))
    {
      if pos < |buffer| {
        var tok := buffer[pos];
        pos := pos + 1;
        r := Some(tok);
        assert [tok] + Rest() == old(Rest());
      } else {
        r := None;
      }
    }

    /**
     * Takes the next token and returns it if `pred` accepts it, or `err`
     * otherwise. The token is consumed whether or not `pred` accepts it.
     */
    method Expect<E>(pred: Token -> bool, err: E) returns (r: Result<Token, E>)
      modifies this`pos
      ensures old(Valid()) ==> Valid()
      ensures r.Ok? <==> old(pos) < |buffer| && pred(buffer[old(pos)])
      ensures r.Ok? ==> r.value == buffer[old(pos)]
      ensures r.Err? ==> r.error == err
      ensures pos == if old(pos) < |buffer| then old(pos) + 1 else old(pos)
    {
      var next := Next();
      if next.Some? && pred(next.value) {
        r := Ok(next.value);
      } else {
        r := Err(err);
      }
    }
  }
}
