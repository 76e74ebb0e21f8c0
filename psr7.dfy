/**
 * The part of the PSR-7 HTTP message interfaces the views use: an immutable
 * response value with a header map, whose body is a stream object shared by
 * every response derived from it.
 */
module Psr7 {

  /** A body stream; every `write` appends one chunk. */
  class Stream {
    var chunks: seq<string>

    constructor ()
      ensures chunks == []
    {
      chunks := [];
    }

    method Write(text: string)
      modifies this
      ensures chunks == old(chunks) + [text]
    {
      chunks := chunks + [text];
    }
  }

  /**
   * A response: header values keyed by their case-folded name, and the body
   * stream. `withHeader` yields a new value that shares the stream.
   */
  datatype Response = Response(headers: map<string, string>, body: Stream)

  function LowerChar(c: char): char
  {
    if 'A' <= c <= 'Z' then (c as int + 32) as char else c
  }

  /** Header names compare case-insensitively; this is the key a name is stored under. */
  function HeaderKey(name: string): (k: string)
    ensures |k| == |name|
  {
    seq(|name|, i requires 0 <= i < |name| => LowerChar(name[i]))
  }

  /** `$response->hasHeader($name)` */
  predicate HasHeader(r: Response, name: string)
  {
    HeaderKey(name) in r.headers
  }

  /** The value stored under `name`, when there is one. */
  function Header(r: Response, name: string): string
    requires HasHeader(r, name)
  {
    r.headers[HeaderKey(name)]
  }

  /** `$response->withHeader($name, $value)`: replaces any value under that name, keeps everything else. */
  function WithHeader(r: Response, name: string, value: string): (r': Response)
    ensures r'.body == r.body
    ensures HasHeader(r', name) && Header(r', name) == value
    ensures forall n :: HeaderKey(n) != HeaderKey(name) ==>
      (HasHeader(r', n) <==> HasHeader(r, n)) && (HasHeader(r, n) ==> Header(r', n) == Header(r, n))
  {
    r.(headers := r.headers[HeaderKey(name) := value])
  }

  const ContentType := "Content-Type"
}
