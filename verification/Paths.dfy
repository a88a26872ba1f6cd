/** Windows path text (path.rs) and the joining of names into a path. */
module Paths {
  function Reverse<T>(s: seq<T>): seq<T> {
    if s == [] then [] else Reverse(s[1..]) + [s[0]]
  }

  predicate IsAsciiUpper(c: char) { 'A' <= c <= 'Z' }
  predicate IsAsciiLower(c: char) { 'a' <= c <= 'z' }
  predicate IsAsciiAlphabetic(c: char) { IsAsciiUpper(c) || IsAsciiLower(c) }

  function UpperChar(c: char): char {
    if IsAsciiLower(c) then (c as int - 32) as char else c
  }

  function UpperAscii(s: string): (r: string)
    ensures |r| == |s| && forall k :: 0 <= k < |s| ==> r[k] == UpperChar(s[k])
  {
    if s == "" then "" else [UpperChar(s[0])] + UpperAscii(s[1..])
  }

  predicate IsDrivePrefix(path: string) {
    |path| == 2 && IsAsciiAlphabetic(path[0]) && path[1] == ':'
  }

  predicate IsDriveRoot(path: string) {
    |path| == 3 && IsAsciiAlphabetic(path[0]) && path[1] == ':' && (path[2] == '\\' || path[2] == '/')
  }

  predicate EndsWithSeparator(path: string) { path != "" && path[|path| - 1] == '\\' }

  /** Append the remaining parts, each behind exactly one separator. */
  function AppendParts(path: string, parts: seq<string>): string
    decreases |parts|
  {
    if parts == [] then path
    else AppendParts((if EndsWithSeparator(path) then path else path + "\\") + parts[0], parts[1..])
  }

  function JoinWith(parts: seq<string>): string {
    if parts == [] then ""
    else if |parts| == 1 then parts[0]
    else parts[0] + "\\" + JoinWith(parts[1..])
  }

  function JoinPathParts(parts: seq<string>): string {
    if parts != [] && IsDrivePrefix(parts[0]) then
      AppendParts(UpperAscii(parts[0]) + "\\", parts[1..])
    else JoinWith(parts)
  }

  /** The path of a record from its names, nearest first. */
  function PathOf(names: seq<string>): string { JoinPathParts(Reverse(names)) }
}
