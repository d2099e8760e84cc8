/**
 * `normalizedCode` and `openRoom` of `components/RoomSwitcher.tsx`: turn the
 * typed room code into the form room URLs use, and refuse an empty one.
 */
module RoomSwitcher {
  import opened Wrappers
  import opened Strings

  /** The characters a room code keeps: `[A-Z0-9-]`. */
  predicate CodeChar(c: char) {
    'A' <= c <= 'Z' || '0' <= c <= '9' || c == '-'
  }

  predicate IsCode(s: string) {
    forall k :: 0 <= k < |s| ==> CodeChar(s[k])
  }

  /** `s.replace(/[^A-Z0-9-]/g, '')`: the code characters of `s`, in order. */
  function KeepCodeChars(s: string): (r: string)
    ensures IsCode(r)
    ensures |r| <= |s|
  {
    if s == [] then []
    else if CodeChar(s[0]) then [s[0]] + KeepCodeChars(s[1..])
    else KeepCodeChars(s[1..])
  }

  /** Filtering keeps every code character: on a code it removes nothing. */
  lemma {:induction false} KeepCodeCharsOfCode(s: string)
    requires IsCode(s)
    ensures KeepCodeChars(s) == s
  {
    if s != [] {
      KeepCodeCharsOfCode(s[1..]);
    }
  }

  /** The filter works character by character: a split input filters piecewise. */
  lemma {:induction false} KeepCodeCharsConcat(a: string, b: string)
    ensures KeepCodeChars(a + b) == KeepCodeChars(a) + KeepCodeChars(b)
    decreases |a|
  {
    if a != [] {
      assert (a + b)[0] == a[0];
      assert (a + b)[1..] == a[1..] + b;
      KeepCodeCharsConcat(a[1..], b);
    } else {
      assert a + b == b;
    }
  }

  /** A single character survives the filter exactly when it is a code character. */
  lemma KeepCodeCharsSingle(c: char)
    ensures KeepCodeChars([c]) == if CodeChar(c) then [c] else []
  {
    assert [c][1..] == [];
  }

  lemma ToUpperConcat(a: string, b: string)
    ensures ToUpper(a + b) == ToUpper(a) + ToUpper(b)
  {
  }

  /** `normalizedCode(v)`: trim, upper-case, then drop everything outside `[A-Z0-9-]`. */
  function NormalizedCode(v: string): (r: string)
    ensures IsCode(r)
  {
    KeepCodeChars(ToUpper(Trim(v)))
  }

  /** A code has no whitespace and no lower-case letter. */
  lemma CodeIsTrimmedUpper(s: string)
    requires IsCode(s)
    ensures IsTrimmed(s) && IsUpperCase(s)
  {
  }

  /** Normalising a normalised code changes nothing. */
  lemma NormalizedCodeIdempotent(v: string)
    ensures NormalizedCode(NormalizedCode(v)) == NormalizedCode(v)
  {
    var c := NormalizedCode(v);
    CodeIsTrimmedUpper(c);
    TrimTrimmed(c);
    UpperCaseFixed(c);
    KeepCodeCharsOfCode(c);
  }

  /** A code already in normal form is taken as typed. */
  lemma NormalizedCodeOfCode(v: string)
    requires IsCode(v)
    ensures NormalizedCode(v) == v
  {
    CodeIsTrimmedUpper(v);
    TrimTrimmed(v);
    UpperCaseFixed(v);
    KeepCodeCharsOfCode(v);
  }

  /** What `openRoom` does: show the error message, or navigate. */
  datatype Action = ShowError(message: string) | Navigate(path: string)

  const EmptyCodeMessage: string := "Enter a room code"
  const RoomPathPrefix: string := "/u/"

  /** `openRoom()`, for the text in the input box. */
  function OpenRoom(typed: string): (a: Action)
    ensures a.ShowError? <==> NormalizedCode(typed) == ""
    ensures a.ShowError? ==> a.message == EmptyCodeMessage
    ensures a.Navigate? ==> a.path == RoomPathPrefix + NormalizedCode(typed)
  {
    var c := NormalizedCode(typed);
    if c == "" then ShowError(EmptyCodeMessage) else Navigate(RoomPathPrefix + c)
  }

  /**
   * Typing the code of the room already open leads to the same room: the
   * path's code is a fixed point of normalisation.
   */
  lemma OpenRoomStable(typed: string)
    requires OpenRoom(typed).Navigate?
    ensures OpenRoom(NormalizedCode(typed)) == OpenRoom(typed)
  {
    NormalizedCodeIdempotent(typed);
  }

  /**
   * Each character of the trimmed input contributes, at its own place, its
   * upper-case form when that is a code character and nothing otherwise; a
   * lower-case letter is therefore kept, upper-cased.
   */
  lemma NormalizedCodeKeeps(v: string, a: string, c: char, b: string)
    requires Trim(v) == a + [c] + b
    ensures NormalizedCode(v) == KeepCodeChars(ToUpper(a))
                                 + (if CodeChar(UpperChar(c)) then [UpperChar(c)] else [])
                                 + KeepCodeChars(ToUpper(b))
    ensures 'a' <= c <= 'z' ==> CodeChar(UpperChar(c))
  {
    ToUpperConcat(a + [c], b);
    ToUpperConcat(a, [c]);
    KeepCodeCharsConcat(ToUpper(a) + ToUpper([c]), ToUpper(b));
    KeepCodeCharsConcat(ToUpper(a), ToUpper([c]));
    assert ToUpper([c]) == [UpperChar(c)];
    KeepCodeCharsSingle(UpperChar(c));
  }
}
