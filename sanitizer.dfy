/** The filename sanitiser of the download executor (backend.py:321-323) and the on-disk
    path built from its result (backend.py:325). */
module Sanitizer {
  import opened Seqs

  /** Alphanumeric characters; only the ASCII letters and digits are modelled. */
  predicate IsAlnum(c: char)
  {
    ('a' <= c <= 'z') || ('A' <= c <= 'Z') || ('0' <= c <= '9')
  }

  /** The characters the sanitiser keeps. */
  predicate Allowed(c: char)
  {
    IsAlnum(c) || c == '.' || c == '_' || c == '-'
  }

  predicate AllAllowed(s: string)
  {
    forall i :: 0 <= i < |s| ==> Allowed(s[i])
  }

  /** Whitespace as Python's `str.isspace` defines it. */
  predicate IsSpace(c: char)
  {
    || ('\t' <= c <= '\r') || ('\U{1c}' <= c <= ' ')
    || c == '\U{85}' || c == '\U{a0}' || c == '\U{1680}'
    || ('\U{2000}' <= c <= '\U{200a}') || c == '\U{2028}' || c == '\U{2029}'
    || c == '\U{202f}' || c == '\U{205f}' || c == '\U{3000}'
  }

  /** The generator `c for c in file_name if c.isalnum() or c in "._-"`, joined. */
  function KeepAllowed(s: string): (r: string)
    ensures |r| <= |s|
    ensures AllAllowed(r)
    ensures AllAllowed(s) ==> r == s
  {
    if s == [] then []
    else (if Allowed(s[0]) then [s[0]] else []) + KeepAllowed(s[1..])
  }

  /** `str.rstrip()` with no argument: drop trailing whitespace. */
  function RStrip(s: string): (r: string)
    ensures |r| <= |s| && r == s[..|r|]
    ensures r == [] || !IsSpace(r[|r| - 1])
    ensures forall i :: |r| <= i < |s| ==> IsSpace(s[i])
  {
    if s != [] && IsSpace(s[|s| - 1]) then RStrip(s[..|s| - 1]) else s
  }

  function DigitChar(d: int): (c: char)
    requires 0 <= d < 10
    ensures '0' <= c <= '9'
  {
    (48 + d) as char
  }

  /** Decimal digits of a natural number, as `str` prints them. */
  function NatToString(n: nat): (r: string)
    ensures r != []
    ensures forall i :: 0 <= i < |r| ==> '0' <= r[i] <= '9'
  {
    if n < 10 then [DigitChar(n)] else NatToString(n / 10) + [DigitChar(n % 10)]
  }

  /** The number a string of decimal digits denotes. */
  function DigitsValue(s: string): nat
    requires forall i :: 0 <= i < |s| ==> '0' <= s[i] <= '9'
  {
    if s == [] then 0 else DigitsValue(s[..|s| - 1]) * 10 + (s[|s| - 1] as int - '0' as int)
  }

  /** The digits `str` prints denote the number again, with no leading zero. */
  lemma {:induction false} NatToStringValue(n: nat)
    ensures DigitsValue(NatToString(n)) == n
    ensures NatToString(n)[0] == '0' ==> n == 0
  {
    if n >= 10 {
      var s := NatToString(n);
      NatToStringValue(n / 10);
      assert s[..|s| - 1] == NatToString(n / 10);
      assert s[0] == NatToString(n / 10)[0];
    }
  }

  /** `str` of an integer: an optional minus sign, then the digits. */
  function IntToString(n: int): (r: string)
    ensures r != [] && AllAllowed(r)
  {
    if n < 0 then "-" + NatToString(-n) else NatToString(n)
  }

  /** The name `video_{chat_id}_{message_id}.mp4` used when the video has no usable name. */
  function FallbackName(chatId: int, messageId: int): (r: string)
    ensures r != [] && AllAllowed(r)
  {
    var c := IntToString(chatId);
    var m := IntToString(messageId);
    var r := "video_" + c + "_" + m + ".mp4";
    assert forall i :: 0 <= i < |r| ==> Allowed(r[i]) by {
      forall i | 0 <= i < |r| ensures Allowed(r[i]) {
        if i < 6 {
        } else if i < 6 + |c| {
          assert r[i] == c[i - 6];
        } else if i == 6 + |c| {
        } else if i < 7 + |c| + |m| {
          assert r[i] == m[i - 7 - |c|];
        }
      }
    }
    r
  }

  /** The whole sanitising expression of backend.py:321-323. */
  function SafeFileName(fileName: string, chatId: int, messageId: int): string
  {
    var kept := RStrip(KeepAllowed(fileName));
    if kept == [] then FallbackName(chatId, messageId) else kept
  }

  /** Trailing whitespace is never allowed, so the `rstrip` step changes nothing. */
  lemma RStripKeepsAllowed(s: string)
    requires AllAllowed(s)
    ensures RStrip(s) == s
  {
    if s != [] {
      assert Allowed(s[|s| - 1]);
    }
  }

  /** The sanitised name is never empty and holds only alphanumerics and `. _ -`; in
      particular it has no path separator. */
  lemma SafeFileNameIsSafe(fileName: string, chatId: int, messageId: int)
    ensures var r := SafeFileName(fileName, chatId, messageId);
      && r != [] && AllAllowed(r)
      && (forall i :: 0 <= i < |r| ==> r[i] != '/' && r[i] != '\\')
  {
    RStripKeepsAllowed(KeepAllowed(fileName));
  }

  /** The result is the filtered input when anything survives the filter, and exactly
      the fallback name otherwise. */
  lemma SafeFileNameCases(fileName: string, chatId: int, messageId: int)
    ensures KeepAllowed(fileName) != [] ==> SafeFileName(fileName, chatId, messageId) == KeepAllowed(fileName)
    ensures KeepAllowed(fileName) == [] ==> SafeFileName(fileName, chatId, messageId) == FallbackName(chatId, messageId)
  {
    RStripKeepsAllowed(KeepAllowed(fileName));
  }

  /** The filter keeps its input's characters in order: its result is a subsequence of it. */
  lemma {:induction false} KeepAllowedSubsequence(s: string)
    ensures IsSubsequence(KeepAllowed(s), s)
  {
    if s != [] {
      KeepAllowedSubsequence(s[1..]);
      var rest := KeepAllowed(s[1..]);
      if Allowed(s[0]) {
        assert KeepAllowed(s) == [s[0]] + rest;
        assert ([s[0]] + rest)[1..] == rest;
      } else {
        assert KeepAllowed(s) == rest;
        assert rest == [] || rest[0] != s[0];
      }
    }
  }

  /** The filter keeps every allowed character as often as the input has it, and no other. */
  lemma {:induction false} KeepAllowedCounts(s: string, c: char)
    ensures multiset(KeepAllowed(s))[c] == if Allowed(c) then multiset(s)[c] else 0
  {
    if s != [] {
      KeepAllowedCounts(s[1..], c);
      assert s == [s[0]] + s[1..];
      assert multiset(s) == multiset([s[0]]) + multiset(s[1..]);
    }
  }

  /** A non-fallback sanitised name is a subsequence of the untrusted name. */
  lemma SafeFileNameSubsequence(fileName: string, chatId: int, messageId: int)
    requires KeepAllowed(fileName) != []
    ensures IsSubsequence(SafeFileName(fileName, chatId, messageId), fileName)
  {
    SafeFileNameCases(fileName, chatId, messageId);
    KeepAllowedSubsequence(fileName);
  }

  /** Sanitising a sanitised name returns it unchanged, whatever chat and message ids
      the second call is given. */
  lemma SafeFileNameIdempotent(fileName: string, chatId: int, messageId: int, chatId2: int, messageId2: int)
    ensures var r := SafeFileName(fileName, chatId, messageId);
      SafeFileName(r, chatId2, messageId2) == r
  {
    var r := SafeFileName(fileName, chatId, messageId);
    SafeFileNameIsSafe(fileName, chatId, messageId);
    RStripKeepsAllowed(r);
  }

  /** The dot names survive the filter: `..` sanitises to itself. */
  lemma DotDotSurvives(chatId: int, messageId: int)
    ensures SafeFileName("..", chatId, messageId) == ".."
    ensures SafeFileName("../", chatId, messageId) == ".."
  {
    assert KeepAllowed("/") == [];
    assert KeepAllowed("./") == ".";
    assert KeepAllowed("../") == "..";
    assert KeepAllowed("..") == "..";
    RStripKeepsAllowed("..");
  }

  const STORAGE_DIR: string := "storage"

  /** `str(STORAGE_DIR / name)`: pathlib drops a `.` component, so the name `.` denotes
      the storage directory itself. */
  function StoragePath(name: string): string
  {
    if name == "." then STORAGE_DIR else STORAGE_DIR + "/" + name
  }

  /** The part of `p` after its last `/`. This is `Path(p).name` on the paths `StoragePath`
      builds, but not in general: pathlib ignores a trailing `/` and drops a final `.`
      component (`Path("a/.").name == "a"`), where this gives `""` and `"."`; both keep `..`. */
  function PathName(p: string): (r: string)
    ensures |r| <= |p|
  {
    if p == [] || p[|p| - 1] == '/' then [] else PathName(p[..|p| - 1]) + [p[|p| - 1]]
  }

  /** A name without `/` that follows a `/` (or stands alone) is the path's name. */
  lemma {:induction false} PathNameOfLastComponent(dir: string, name: string)
    requires forall i :: 0 <= i < |name| ==> name[i] != '/'
    requires dir == [] || dir[|dir| - 1] == '/'
    ensures PathName(dir + name) == name
  {
    if name != [] {
      var init := name[..|name| - 1];
      assert (dir + name)[..|dir + name| - 1] == dir + init;
      PathNameOfLastComponent(dir, init);
      assert name == init + [name[|name| - 1]];
    } else {
      assert dir + name == dir;
    }
  }

  /** The download name reported at delivery is the sanitised name (the storage
      directory's own name when the sanitised name is `.`). */
  lemma PathNameOfStoragePath(fileName: string, chatId: int, messageId: int)
    ensures var safe := SafeFileName(fileName, chatId, messageId);
      PathName(StoragePath(safe)) == if safe == "." then STORAGE_DIR else safe
  {
    SafeFileNameIsSafe(fileName, chatId, messageId);
    PathNameOfStoredName(SafeFileName(fileName, chatId, messageId));
  }

  /** The same for any name without `/`, the form every sanitised name has. */
  lemma PathNameOfStoredName(safe: string)
    requires forall i :: 0 <= i < |safe| ==> safe[i] != '/'
    ensures PathName(StoragePath(safe)) == if safe == "." then STORAGE_DIR else safe
  {
    if safe != "." {
      PathNameOfLastComponent(STORAGE_DIR + "/", safe);
      assert STORAGE_DIR + "/" + safe == (STORAGE_DIR + "/") + safe;
    } else {
      PathNameOfLastComponent([], STORAGE_DIR);
      assert [] + STORAGE_DIR == STORAGE_DIR;
    }
  }
}
