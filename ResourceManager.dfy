/** `Hubris::IO`: the resource manager's registry of extension handlers,
    keyed by the file extensions listed in an `Extension`'s `|`-separated
    postfix string, and the `IOBuffer` it hands out. */
module ResourceManager {

  datatype Option<T> = None | Some(value: T)

  /** A handler pointer: null, or the address of an `ExtensionHandler`. */
  datatype HandlerPtr = Null | Ptr(address: nat)

  /** `Extension`: the postfix string and its handler. */
  datatype Extension = Extension(extPostfix: string, handler: HandlerPtr)

  /** `IOBuffer`: a raw buffer address (0 for null) and its size. */
  datatype IOBuffer = IOBuffer(buffer: nat, bufferSize: nat)
  {
    /** `size()`. */
    function Size(): nat
    {
      bufferSize
    }

    /** `get_raw()`. */
    function GetRaw(): nat
    {
      buffer
    }
  }

  /** `IOBuffer()`: null and 0. */
  const DefaultBuffer: IOBuffer := IOBuffer(0, 0)

  /** The accessors return what the buffer was built from, null and 0 for
      the default buffer. */
  lemma BufferAccessors(buffer: nat, bufferSize: nat)
    ensures IOBuffer(buffer, bufferSize).Size() == bufferSize
    ensures IOBuffer(buffer, bufferSize).GetRaw() == buffer
    ensures DefaultBuffer.Size() == 0 && DefaultBuffer.GetRaw() == 0
  {
  }

  /** The characters `" \t\n\r\f\v"` that are trimmed. */
  predicate IsSpace(c: char)
  {
    c == ' ' || c == '\t' || c == '\n' || c == '\r' || c == '\U{0C}' || c == '\U{0B}'
  }

  /** `find_first_not_of(ws, i)`: the first position from `i` on that is
      not whitespace, `|s|` standing for `npos`. */
  function FirstNotSpace(s: string, i: nat): (r: nat)
    requires i <= |s|
    ensures i <= r <= |s|
    ensures r < |s| ==> !IsSpace(s[r])
    decreases |s| - i
  {
    if i == |s| || !IsSpace(s[i]) then i else FirstNotSpace(s, i + 1)
  }

  /** Every position skipped is whitespace. */
  lemma {:induction false} SkippedAreSpace(s: string, i: nat)
    requires i <= |s|
    ensures forall k :: i <= k < FirstNotSpace(s, i) ==> IsSpace(s[k])
    decreases |s| - i
  {
    if i < |s| && IsSpace(s[i]) {
      SkippedAreSpace(s, i + 1);
    }
  }

  /** `find_last_not_of(ws) + 1` over `s[..j]`: the end of the last
      character that is not whitespace, 0 when there is none (`npos + 1`
      wraps to 0). */
  function EndNotSpace(s: string, j: nat): (r: nat)
    requires j <= |s|
    ensures r <= j
    ensures r > 0 ==> !IsSpace(s[r - 1])
    decreases j
  {
    if j == 0 || !IsSpace(s[j - 1]) then j else EndNotSpace(s, j - 1)
  }

  /** Every position cut off is whitespace. */
  lemma {:induction false} CutAreSpace(s: string, j: nat)
    requires j <= |s|
    ensures forall k :: EndNotSpace(s, j) <= k < j ==> IsSpace(s[k])
    decreases j
  {
    if j > 0 && IsSpace(s[j - 1]) {
      CutAreSpace(s, j - 1);
    }
  }

  /** `extension.erase(0, extension.find_first_not_of(ws))`: the leading
      whitespace removed (all of it when there is nothing else). */
  function TrimLeading(s: string): string
  {
    s[FirstNotSpace(s, 0)..]
  }

  /** `extension.erase(extension.find_last_not_of(ws) + 1)`: the trailing
      whitespace removed. */
  function TrimTrailing(s: string): string
  {
    s[..EndNotSpace(s, |s|)]
  }

  /** Both erasures, leading first. */
  function Trim(s: string): string
  {
    TrimTrailing(TrimLeading(s))
  }

  /** A trimmed piece is a slice of the original with only whitespace cut
      off either side, and neither starts nor ends with whitespace. */
  lemma TrimIsInnerSlice(s: string)
    ensures Trim(s) != [] ==> !IsSpace(Trim(s)[0]) && !IsSpace(Trim(s)[|Trim(s)| - 1])
    ensures |s| - |TrimLeading(s)| + |Trim(s)| <= |s|
    ensures Trim(s) == s[|s| - |TrimLeading(s)|..|s| - |TrimLeading(s)| + |Trim(s)|]
    ensures forall k :: 0 <= k < |s| - |TrimLeading(s)| ==> IsSpace(s[k])
    ensures forall k :: |s| - |TrimLeading(s)| + |Trim(s)| <= k < |s| ==> IsSpace(s[k])
  {
    var l := TrimLeading(s);
    var r := TrimTrailing(l);
    SkippedAreSpace(s, 0);
    CutAreSpace(l, |l|);
    InnerSlice(s, l, r);
  }

  /** A prefix `r` of a suffix `l` of `s`, with whitespace only around it,
      is a middle slice of `s` with whitespace only around it. */
  lemma InnerSlice(s: string, l: string, r: string)
    requires |l| <= |s| && l == s[|s| - |l|..]
    requires |r| <= |l| && r == l[..|r|]
    requires forall k :: |r| <= k < |l| ==> IsSpace(l[k])
    ensures |s| - |l| + |r| <= |s|
    ensures r == s[|s| - |l|..|s| - |l| + |r|]
    ensures forall k :: |s| - |l| + |r| <= k < |s| ==> IsSpace(s[k])
  {
    var i := |s| - |l|;
    SliceOfSuffix(s, i, |r|);
    forall k | i + |r| <= k < |s|
      ensures IsSpace(s[k])
    {
      assert s[k] == l[k - i];
    }
  }

  /** A prefix of a suffix is a middle slice. */
  lemma SliceOfSuffix(s: string, i: nat, n: nat)
    requires i + n <= |s|
    ensures s[i..][..n] == s[i..i + n]
  {
  }

  /** An all-whitespace piece trims to the empty string. */
  lemma AllSpaceTrimsToEmpty(s: string)
    requires forall k :: 0 <= k < |s| ==> IsSpace(s[k])
    ensures Trim(s) == []
  {
    assert FirstNotSpace(s, 0) == |s|;
    assert TrimLeading(s) == [];
  }

  /** Trimming twice changes nothing more. */
  lemma TrimIdempotent(s: string)
    ensures Trim(Trim(s)) == Trim(s)
  {
    var r := Trim(s);
    TrimIsInnerSlice(s);
    if r != [] {
      assert FirstNotSpace(r, 0) == 0;
      assert TrimLeading(r) == r;
      assert EndNotSpace(r, |r|) == |r|;
    }
  }

  /** The index of the first `c` in `s`, if any. */
  function FirstIndexOf(s: string, c: char): (r: Option<nat>)
    ensures r.Some? ==> r.value < |s| && s[r.value] == c && c !in s[..r.value]
    ensures r.None? ==> c !in s
  {
    if s == [] then None
    else if s[0] == c then Some(0)
    else match FirstIndexOf(s[1..], c)
      case Some(i) => assert s[..i + 1] == [s[0]] + s[1..][..i]; Some(i + 1)
      case None => None
  }

  /** The index of the last `c` in `s` (`find_last_of`), if any. */
  function LastIndexOf(s: string, c: char): (r: Option<nat>)
    ensures r.Some? ==> r.value < |s| && s[r.value] == c && c !in s[r.value + 1..]
    ensures r.None? ==> c !in s
  {
    if s == [] then None
    else if s[|s| - 1] == c then Some(|s| - 1)
    else
      assert s == s[..|s| - 1] + [s[|s| - 1]];
      LastIndexOf(s[..|s| - 1], c)
  }

  /** The strings successive `getline(ss, piece, '|')` calls produce: the
      text up to each `|`, the `|` consumed; a call at the end of the
      stream fails, so an empty input gives nothing and a trailing `|` no
      trailing empty piece. */
  function Pieces(s: string): seq<string>
    decreases |s|
  {
    if s == [] then []
    else match FirstIndexOf(s, '|')
      case None => [s]
      case Some(i) => [s[..i]] + Pieces(s[i + 1..])
  }

  /** `f` applied to every element, in order. */
  function MapEach<A, B>(f: A -> B, xs: seq<A>): seq<B>
  {
    if xs == [] then [] else [f(xs[0])] + MapEach(f, xs[1..])
  }

  /** Mapping keeps the length and maps each position. */
  lemma {:induction false} MapEachPointwise<A, B>(f: A -> B, xs: seq<A>)
    ensures |MapEach(f, xs)| == |xs|
    ensures forall k :: 0 <= k < |xs| ==> MapEach(f, xs)[k] == f(xs[k])
    decreases |xs|
  {
    if xs != [] {
      MapEachPointwise(f, xs[1..]);
    }
  }

  /** Every piece trimmed, in order. */
  function TrimAll(pieces: seq<string>): seq<string>
  {
    MapEach(Trim, pieces)
  }

  /** Trimming every piece keeps their number and order. */
  lemma TrimAllPointwise(pieces: seq<string>)
    ensures |TrimAll(pieces)| == |pieces|
    ensures forall k :: 0 <= k < |pieces| ==> TrimAll(pieces)[k] == Trim(pieces[k])
  {
    MapEachPointwise(Trim, pieces);
  }

  lemma TrimAllCons(p: string, ps: seq<string>)
    ensures TrimAll([p] + ps) == [Trim(p)] + TrimAll(ps)
  {
    assert ([p] + ps)[1..] == ps;
  }

  /** Moving one element from the front of the rest to the back of what
      is done keeps the whole. */
  lemma AppendRegroups(done: seq<string>, x: string, rest: seq<string>)
    ensures done + ([x] + rest) == (done + [x]) + rest
  {
  }

  /** The pieces joined back with `|`. */
  function Join(pieces: seq<string>): string
  {
    if pieces == [] then []
    else if |pieces| == 1 then pieces[0]
    else pieces[0] + "|" + Join(pieces[1..])
  }

  /** One step of the splitting: a `|` at `i` ends the first piece. */
  lemma PiecesStep(s: string, i: nat)
    requires i < |s| && s[i] == '|' && '|' !in s[..i]
    ensures Pieces(s) == [s[..i]] + Pieces(s[i + 1..])
  {
    assert FirstIndexOf(s, '|') == Some(i);
  }

  /** No piece holds a `|`. */
  lemma {:induction false} NoBarInPieces(s: string)
    ensures forall p :: p in Pieces(s) ==> '|' !in p
    decreases |s|
  {
    if s != [] {
      match FirstIndexOf(s, '|')
      case None =>
      case Some(i) =>
        NoBarInPieces(s[i + 1..]);
    }
  }

  /** Joining the pieces with `|` gives the input back, up to a final `|`
      that ends no piece. */
  lemma {:induction false} PiecesJoinBack(s: string)
    ensures if s != [] && s[|s| - 1] == '|' then Join(Pieces(s)) + "|" == s else Join(Pieces(s)) == s
    decreases |s|
  {
    if s == [] {
      return;
    }
    match FirstIndexOf(s, '|')
    case None =>
    case Some(i) =>
      var head, rest := s[..i], s[i + 1..];
      assert s == head + "|" + rest;
      PiecesStep(s, i);
      PiecesJoinBack(rest);
      if rest != [] {
        assert s[|s| - 1] == rest[|rest| - 1];
        PiecesNonEmpty(rest);
        JoinCons(head, Pieces(rest));
      }
  }

  /** A non-empty input gives at least one piece. */
  lemma PiecesNonEmpty(s: string)
    requires s != []
    ensures Pieces(s) != []
  {
  }

  /** Joining a piece in front of at least one more puts a `|` between. */
  lemma JoinCons(head: string, tail: seq<string>)
    requires tail != []
    ensures Join([head] + tail) == head + "|" + Join(tail)
  {
    assert ([head] + tail)[1..] == tail;
  }

  /** `getline` keeps an empty piece between two `|`. */
  lemma GetlineKeepsEmptyPiece()
    ensures Pieces("a||b") == ["a", "", "b"]
  {
    assert Pieces("b") == ["b"] by {
      assert FirstIndexOf("b", '|') == None;
    }
    PiecesStep("|b", 0);
    assert "|b"[..0] == "" && "|b"[1..] == "b";
    PiecesStep("a||b", 1);
    assert "a||b"[..1] == "a" && "a||b"[2..] == "|b";
  }

  /** A trailing `|` gives no empty piece, and an empty input no piece at
      all. */
  lemma GetlineAtEnd()
    ensures Pieces("a|") == ["a"]
    ensures Pieces("") == []
    ensures Pieces("|") == [""]
  {
    assert Pieces("") == [];
    PiecesStep("a|", 1);
    assert "a|"[..1] == "a" && "a|"[2..] == "";
    PiecesStep("|", 0);
    assert "|"[..0] == "" && "|"[1..] == "";
  }

  /** One `getline(ss, extension, '|')` on the unread text `s`: the
      characters up to the first `|` (scanned one at a time) and what is
      left after the `|`. */
  method Getline(s: string) returns (piece: string, rest: string)
    requires s != []
    ensures Pieces(s) == [piece] + Pieces(rest)
    ensures |rest| < |s|
  {
    var i := 0;
    while i < |s| && s[i] != '|'
      invariant i <= |s|
      invariant '|' !in s[..i]
    {
      assert s[..i + 1] == s[..i] + [s[i]];
      i := i + 1;
    }
    if i == |s| {
      assert s[..i] == s;
      return s, [];
    }
    PiecesStep(s, i);
    return s[..i], s[i + 1..];
  }

  /** `ParseExtensions(extPostfix)`: the trimmed pieces, in input order. */
  method ParseExtensions(extPostfix: string) returns (extensions: seq<string>)
    ensures extensions == TrimAll(Pieces(extPostfix))
  {
    var rest := extPostfix;
    extensions := [];
    while rest != []
      invariant TrimAll(Pieces(extPostfix)) == extensions + TrimAll(Pieces(rest))
      decreases |rest|
    {
      var extension, after := Getline(rest);
      TrimAllCons(extension, Pieces(after));
      AppendRegroups(extensions, Trim(extension), TrimAll(Pieces(after)));
      extensions := extensions + [Trim(extension)];
      rest := after;
    }
  }

  /** The handler map after `HandlerMap[key] = handler` for each key in order. */
  function Register(m: map<string, HandlerPtr>, keys: seq<string>, handler: HandlerPtr): map<string, HandlerPtr>
    decreases |keys|
  {
    if keys == [] then m else Register(m[keys[0] := handler], keys[1..], handler)
  }

  /** Registering maps every key to the handler and leaves other keys as
      they were. */
  lemma {:induction false} RegisterMapsKeys(m: map<string, HandlerPtr>, keys: seq<string>, handler: HandlerPtr)
    ensures forall k :: k in Register(m, keys, handler) <==> k in m || k in keys
    ensures forall k :: k in keys ==> Register(m, keys, handler)[k] == handler
    ensures forall k :: k in m && k !in keys ==> Register(m, keys, handler)[k] == m[k]
    decreases |keys|
  {
    if keys != [] {
      RegisterMapsKeys(m[keys[0] := handler], keys[1..], handler);
      assert forall k :: k in keys <==> k == keys[0] || k in keys[1..];
    }
  }

  /** Of two registrations naming the same key, the later one wins. */
  lemma LaterRegistrationWins(m: map<string, HandlerPtr>, first: seq<string>, h1: HandlerPtr,
                              second: seq<string>, h2: HandlerPtr, key: string)
    requires key in second
    ensures var m' := Register(Register(m, first, h1), second, h2); key in m' && m'[key] == h2
  {
    RegisterMapsKeys(Register(m, first, h1), second, h2);
  }

  /** What `ReadFile` does with a path: the null buffer when the path has
      no `.`, otherwise a call to whatever `HandlerMap[key]` yields (null for
      a key never registered). */
  datatype ReadOutcome = NullBuffer | Dispatch(key: string, handler: HandlerPtr)

  /** The key `ReadFile` looks up: the text after the last `.`, if any. */
  function ExtensionKey(path: string): (r: Option<string>)
    ensures r.None? <==> '.' !in path
    ensures r.Some? ==> '.' !in r.value && |r.value| < |path|
    ensures r.Some? ==> path == path[..|path| - |r.value| - 1] + "." + r.value
  {
    match LastIndexOf(path, '.')
    case None => None
    case Some(i) =>
      assert path == path[..i] + "." + path[i + 1..];
      Some(path[i + 1..])
  }

  /** The static `HandlerMap`. */
  class Registry {
    var handlerMap: map<string, HandlerPtr>

    /** The empty map the program starts with. */
    constructor ()
      ensures handlerMap == map[]
    {
      handlerMap := map[];
    }

    /** `SetExtensionHandler(ext)`: every trimmed piece of the postfix maps
        to the extension's handler, over whatever it mapped to before. */
    method SetExtensionHandler(ext: Extension)
      modifies this
      ensures handlerMap == Register(old(handlerMap), TrimAll(Pieces(ext.extPostfix)), ext.handler)
    {
      var rest := ext.extPostfix;
      while rest != []
        invariant Register(old(handlerMap), TrimAll(Pieces(ext.extPostfix)), ext.handler)
          == Register(handlerMap, TrimAll(Pieces(rest)), ext.handler)
        decreases |rest|
      {
        var extension, after := Getline(rest);
        TrimAllCons(extension, Pieces(after));
        assert ([Trim(extension)] + TrimAll(Pieces(after)))[1..] == TrimAll(Pieces(after));
        extension := Trim(extension);
        handlerMap := handlerMap[extension := ext.handler];
        rest := after;
      }
    }

    /** `ReadFile(path)` as written: without a `.` the null buffer;
        otherwise `HandlerMap[key]`, which inserts a null handler for a key
        never registered, and a call through whatever it yields. */
    method ReadFile(path: string) returns (r: ReadOutcome)
      modifies this
      ensures ExtensionKey(path).None? ==> r == NullBuffer && handlerMap == old(handlerMap)
      ensures ExtensionKey(path).Some? ==>
        var key := ExtensionKey(path).value;
        && handlerMap == (if key in old(handlerMap) then old(handlerMap) else old(handlerMap)[key := Null])
        && r == Dispatch(key, handlerMap[key])
    {
      var dot := LastIndexOf(path, '.');
      if dot.None? {
        return NullBuffer;
      }
      var key := path[dot.value + 1..];
      if key !in handlerMap {
        handlerMap := handlerMap[key := Null];
      }
      return Dispatch(key, handlerMap[key]);
    }

    /** `ReadFile(path)` as intended: a key with no registered handler gives
        the null buffer and leaves the map alone, so no call goes through a
        null handler. */
    method ReadFileFixed(path: string) returns (r: ReadOutcome)
      ensures ExtensionKey(path).None? ==> r == NullBuffer
      ensures ExtensionKey(path).Some? ==>
        var key := ExtensionKey(path).value;
        if key in handlerMap && handlerMap[key] != Null then r == Dispatch(key, handlerMap[key]) else r == NullBuffer
      ensures r.Dispatch? ==> r.handler != Null
    {
      var dot := LastIndexOf(path, '.');
      if dot.None? {
        return NullBuffer;
      }
      var key := path[dot.value + 1..];
      if key !in handlerMap || handlerMap[key] == Null {
        return NullBuffer;
      }
      return Dispatch(key, handlerMap[key]);
    }
  }

  /** With nothing registered, reading "scene.gltf" as written calls through
      a null handler. */
  method UnregisteredKeyDispatchesNull() returns (r: ReadOutcome)
    ensures r == Dispatch("gltf", Null)
  {
    var registry := new Registry();
    assert ExtensionKey("scene.gltf") == Some("gltf") by {
      assert LastIndexOf("scene.gltf", '.') == Some(5);
    }
    r := registry.ReadFile("scene.gltf");
  }
}
