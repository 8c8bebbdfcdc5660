/** Small shared vocabulary: an option type, white space as Python and
    JavaScript define it, trimming, and the truncating `int()` applied to a
    decimal held in thousandths. */
module Common {

  datatype Option<T> = None | Some(value: T) {
    function GetOr(default: T): T {
      if Some? then value else default
    }
  }

  /** Whose definition of white space a trim follows: Python's `str.strip()`
      and JavaScript's `String.prototype.trim()` differ on a few code points. */
  datatype Whitespace = PythonStr | JavaScriptString

  predicate IsSpace(w: Whitespace, c: char) {
    || c == ' ' || c == '\t' || c == '\n' || c == '\r' || c == '\U{B}' || c == '\U{C}'
    || c == '\U{A0}' || c == '\U{1680}' || ('\U{2000}' <= c <= '\U{200A}')
    || c == '\U{2028}' || c == '\U{2029}' || c == '\U{202F}' || c == '\U{205F}' || c == '\U{3000}'
    || (w == PythonStr && (('\U{1C}' <= c <= '\U{1F}') || c == '\U{85}'))
    || (w == JavaScriptString && c == '\U{FEFF}')
  }

  /** True when every character of `s` is white space (so the empty string too). */
  predicate Blank(w: Whitespace, s: string) {
    forall i :: 0 <= i < |s| ==> IsSpace(w, s[i])
  }

  function TrimStart(w: Whitespace, s: string): (r: string)
    ensures |r| <= |s| && r == s[|s| - |r|..]
    ensures forall i :: 0 <= i < |s| - |r| ==> IsSpace(w, s[i])
    decreases |s|
  {
    if s != [] && IsSpace(w, s[0]) then TrimStart(w, s[1..]) else s
  }

  function TrimEnd(w: Whitespace, s: string): (r: string)
    ensures |r| <= |s| && r == s[..|r|]
    ensures forall i :: |r| <= i < |s| ==> IsSpace(w, s[i])
    decreases |s|
  {
    if s != [] && IsSpace(w, s[|s| - 1]) then TrimEnd(w, s[..|s| - 1]) else s
  }

  /** Removes leading and trailing white space; empty exactly when `s` is blank. */
  function Trim(w: Whitespace, s: string): (r: string)
    ensures r == [] <==> Blank(w, s)
    ensures |r| <= |s|
  {
    var t := TrimStart(w, s);
    var r := TrimEnd(w, t);
    assert Blank(w, s) ==> r == [] by {
      TrimStartEdge(w, s);
      TrimEndEdge(w, t);
      if r != [] {
        assert r[0] == t[0] == s[|s| - |t|];
      }
    }
    assert r == [] ==> Blank(w, s) by {
      if r == [] {
        forall i | 0 <= i < |s| ensures IsSpace(w, s[i]) {
          if i >= |s| - |t| {
            assert s[i] == t[i - (|s| - |t|)];
          }
        }
      }
    }
    r
  }

  lemma {:induction false} TrimStartEdge(w: Whitespace, s: string)
    ensures TrimStart(w, s) != [] ==> !IsSpace(w, TrimStart(w, s)[0])
    decreases |s|
  {
    if s != [] && IsSpace(w, s[0]) {
      TrimStartEdge(w, s[1..]);
    }
  }

  lemma {:induction false} TrimEndEdge(w: Whitespace, s: string)
    ensures TrimEnd(w, s) != [] ==> !IsSpace(w, TrimEnd(w, s)[|TrimEnd(w, s)| - 1])
    decreases |s|
  {
    if s != [] && IsSpace(w, s[|s| - 1]) {
      TrimEndEdge(w, s[..|s| - 1]);
    }
  }

  /** A trimmed string neither starts nor ends with white space. */
  lemma TrimEdges(w: Whitespace, s: string)
    ensures var r := Trim(w, s);
            r != [] ==> !IsSpace(w, r[0]) && !IsSpace(w, r[|r| - 1])
  {
    var t := TrimStart(w, s);
    TrimStartEdge(w, s);
    TrimEndEdge(w, t);
    var r := TrimEnd(w, t);
    if r != [] {
      assert r[0] == t[0];
    }
  }

  /** Python's `int()` of a decimal given in thousandths: it truncates toward
      zero, unlike Dafny's Euclidean division. */
  function IntPart(thousandths: int): (r: int)
    ensures thousandths >= 0 ==> 0 <= r * 1000 <= thousandths < (r + 1) * 1000
    ensures thousandths < 0 ==> (r - 1) * 1000 < thousandths <= r * 1000 <= 0
  {
    if thousandths >= 0 then thousandths / 1000 else -((-thousandths) / 1000)
  }
}
