/** The parts of the JavaScript runtime the application leans on: what an
    awaited call can settle to, the values `JSON.parse` produces, and the two
    string built-ins the application uses (`String.prototype.trim` and
    `String.prototype.split` with a one-character separator). */
module Js {

  datatype Option<+T> = None | Some(value: T)

  /** A value caught by a `catch` clause: either an `Error` object, which
      carries a message, or anything else (the `ProgressEvent` a
      `FileReader` rejects with, for one), which carries none. */
  datatype Thrown = ErrorObject(message: string) | NonError

  /** How an awaited promise settles: resolved with a value, or rejected
      with a thrown value. */
  datatype Outcome<+T> = Ok(value: T) | Err(thrown: Thrown) {
    /** The resolved value, or `default` for a rejection. */
    function GetOr(default: T): T {
      if Ok? then value else default
    }
  }

  /** A browser `File` as the application sees it: its name and its declared media
      type (`file.type`). Its bytes are read by `FileReader`, whose outcome
      is an input of the model. */
  datatype File = File(name: string, mimeType: string)

  /** The values `JSON.parse` can produce. Numbers are kept abstract as
      reals; object members keep their textual order. */
  datatype Json =
    | JNull
    | JBool(b: bool)
    | JNumber(n: real)
    | JString(s: string)
    | JArray(elems: seq<Json>)
    | JObject(members: seq<Member>)

  datatype Member = Member(key: string, value: Json)

  /** Property access `obj[key]` on a parsed object: when a key occurs more
      than once, `JSON.parse` keeps the last occurrence. */
  function Lookup(members: seq<Member>, key: string): Option<Json> {
    if |members| == 0 then None
    else if members[|members| - 1].key == key then Some(members[|members| - 1].value)
    else Lookup(members[..|members| - 1], key)
  }

  /** A lookup succeeds exactly when the key occurs, and then finds the
      value of its last occurrence. */
  lemma {:induction false} LookupFindsLast(members: seq<Member>, key: string)
    ensures Lookup(members, key).Some? <==> exists i :: 0 <= i < |members| && members[i].key == key
    ensures Lookup(members, key).Some? ==>
      exists i :: 0 <= i < |members| && members[i].key == key && members[i].value == Lookup(members, key).value &&
        forall j :: i < j < |members| ==> members[j].key != key
  {
    var n := |members|;
    if n > 0 && members[n - 1].key == key {
      assert members[n - 1].key == key;
    } else if n > 0 {
      var init := members[..n - 1];
      LookupFindsLast(init, key);
      if Lookup(init, key).Some? {
        var i :| 0 <= i < |init| && init[i].key == key && init[i].value == Lookup(init, key).value &&
          forall j :: i < j < |init| ==> init[j].key != key;
        assert members[i] == init[i];
        forall j | i < j < n ensures members[j].key != key {
          if j < n - 1 { assert members[j] == init[j]; }
        }
      } else {
        forall i | 0 <= i < n ensures members[i].key != key {
          if i < n - 1 { assert members[i] == init[i]; }
        }
      }
    }
  }

  /** The characters `String.prototype.trim` removes: the ECMAScript
      WhiteSpace and LineTerminator code points. */
  predicate IsWhiteSpace(c: char) {
    || c == '\t' || c == '\U{000B}' || c == '\U{000C}' || c == ' '
    || c == '\U{00A0}' || c == '\U{FEFF}' || c == '\U{1680}'
    || ('\U{2000}' <= c <= '\U{200A}')
    || c == '\U{202F}' || c == '\U{205F}' || c == '\U{3000}'
    || c == '\n' || c == '\r' || c == '\U{2028}' || c == '\U{2029}'
  }

  predicate AllWhiteSpace(s: string) {
    forall i :: 0 <= i < |s| ==> IsWhiteSpace(s[i])
  }

  /** Drops the leading white space: the result is the suffix of `s` that
      starts at its first other character. */
  function TrimStart(s: string): (r: string)
    ensures |r| <= |s| && r == s[|s| - |r|..]
    ensures AllWhiteSpace(s[..|s| - |r|])
    ensures r == [] || !IsWhiteSpace(r[0])
  {
    if |s| > 0 && IsWhiteSpace(s[0]) then
      var r := TrimStart(s[1..]);
      var k := |s| - |r|;
      assert forall i :: 1 <= i < k ==> s[..k][i] == s[1..][..k - 1][i - 1];
      r
    else s
  }

  /** Drops the trailing white space: the result is the prefix of `s` that
      ends at its last other character. */
  function TrimEnd(s: string): (r: string)
    ensures |r| <= |s| && r == s[..|r|]
    ensures AllWhiteSpace(s[|r|..])
    ensures r == [] || !IsWhiteSpace(r[|r| - 1])
  {
    if |s| > 0 && IsWhiteSpace(s[|s| - 1]) then
      var init := s[..|s| - 1];
      var r := TrimEnd(init);
      assert init[..|r|] == s[..|r|];
      assert s[|r|..] == init[|r|..] + [s[|s| - 1]];
      r
    else s
  }

  /** `s.trim()`: the slice of `s` between its leading and its trailing
      white space, itself neither starting nor ending with white space. */
  function Trim(s: string): (r: string)
    ensures exists i, j ::
              0 <= i <= j <= |s| && r == s[i..j] && AllWhiteSpace(s[..i]) && AllWhiteSpace(s[j..])
    ensures r == [] || (!IsWhiteSpace(r[0]) && !IsWhiteSpace(r[|r| - 1]))
  {
    var t := TrimStart(s);
    var r := TrimEnd(t);
    var i := |s| - |t|;
    assert r == s[i..i + |r|];
    assert s[i + |r|..] == t[|r|..];
    r
  }

  /** Trimming twice is trimming once. */
  lemma TrimIdempotent(s: string)
    ensures Trim(Trim(s)) == Trim(s)
  {
    var r := Trim(s);
    if r != [] {
      assert TrimStart(r) == r;
      assert TrimEnd(r) == r;
    }
  }

  /** The pieces joined back together with `sep` between neighbours
      (`pieces.join(sep)`). */
  function Join(pieces: seq<string>, sep: char): string {
    if |pieces| == 0 then ""
    else if |pieces| == 1 then pieces[0]
    else pieces[0] + [sep] + Join(pieces[1..], sep)
  }

  /** `s.split(sep)` for a one-character separator: there is always at
      least one piece, no piece holds the separator, and joining the pieces
      with the separator gives `s` back. */
  function Split(s: string, sep: char): (pieces: seq<string>)
    ensures |pieces| >= 1
    ensures forall i :: 0 <= i < |pieces| ==> sep !in pieces[i]
    ensures Join(pieces, sep) == s
  {
    if |s| == 0 then [""]
    else
      var rest := Split(s[1..], sep);
      if s[0] == sep then
        [""] + rest
      else
        var r := [[s[0]] + rest[0]] + rest[1..];
        assert Join(r, sep) == [s[0]] + Join(rest, sep) by {
          if |rest| > 1 {
            assert r[1..] == rest[1..];
          }
        }
        assert s == [s[0]] + s[1..];
        r
  }

  /** A head without the separator merges into the first piece of what
      follows it. */
  lemma {:induction false} SplitAfterHead(h: string, rest: string, sep: char)
    requires sep !in h
    ensures Split(h + rest, sep) == [h + Split(rest, sep)[0]] + Split(rest, sep)[1..]
  {
    var tail := Split(rest, sep);
    if h == [] {
      assert h + rest == rest;
      assert h + tail[0] == tail[0];
      assert [tail[0]] + tail[1..] == tail;
    } else {
      assert (h + rest)[0] == h[0];
      assert (h + rest)[1..] == h[1..] + rest;
      SplitAfterHead(h[1..], rest, sep);
      var inner := Split(h[1..] + rest, sep);
      assert inner[0] == h[1..] + tail[0];
      assert inner[1..] == tail[1..];
      assert [h[0]] + (h[1..] + tail[0]) == h + tail[0];
    }
  }

  /** Splitting a join of separator-free pieces gives the pieces back. */
  lemma {:induction false} SplitJoin(pieces: seq<string>, sep: char)
    requires |pieces| >= 1
    requires forall i :: 0 <= i < |pieces| ==> sep !in pieces[i]
    ensures Split(Join(pieces, sep), sep) == pieces
  {
    if |pieces| == 1 {
      SplitAfterHead(pieces[0], "", sep);
      assert pieces[0] + "" == pieces[0];
    } else {
      var tail := Join(pieces[1..], sep);
      SplitJoin(pieces[1..], sep);
      calc {
        Split(Join(pieces, sep), sep);
        { assert Join(pieces, sep) == pieces[0] + ([sep] + tail); }
        Split(pieces[0] + ([sep] + tail), sep);
        { SplitAfterHead(pieces[0], [sep] + tail, sep);
          assert ([sep] + tail)[1..] == tail; }
        [pieces[0] + ""] + Split(tail, sep);
        { assert pieces[0] + "" == pieces[0]; }
        [pieces[0]] + pieces[1..];
        pieces;
      }
    }
  }
}
