/** The path-string helpers of `FileHelpers.h`: the extension and the file name
    of a path, and the `top/sub/name.0042.ext` paths of numbered data files. */
module FileHelpers {

  // ---------------------------------------------------------------------------
  // Searching a string

  /** `s.find_last_of(c)`, with `std::string::npos` written as -1. */
  function LastIndexOf(s: string, c: char): (r: int)
    ensures -1 <= r < |s|
    ensures r >= 0 ==> s[r] == c
    ensures forall k :: r < k < |s| ==> s[k] != c
    ensures r == -1 <==> c !in s
  {
    if |s| == 0 then -1
    else if s[|s| - 1] == c then |s| - 1
    else LastIndexOf(s[..|s| - 1], c)
  }

  /** `s.substr(s.find_last_of(c) + 1)`: `npos + 1` wraps round to 0, so with no
      `c` in `s` the whole of `s` is kept. */
  function AfterLast(s: string, c: char): (r: string)
    ensures c !in r
    ensures |r| <= |s| && r == s[|s| - |r|..]
    ensures c in s ==> s[|s| - |r| - 1] == c
    ensures c !in s ==> r == s
  {
    s[LastIndexOf(s, c) + 1..]
  }

  // ---------------------------------------------------------------------------
  // getFileExtension, getFileName

  /** `getFileExtension(filePath)`: the text after the last `'.'`. */
  function FileExtension(filePath: string): (r: string)
    ensures '.' !in r
    ensures |r| <= |filePath| && r == filePath[|filePath| - |r|..]
    ensures '.' in filePath ==> filePath[|filePath| - |r| - 1] == '.'
    ensures '.' !in filePath ==> r == filePath
  {
    AfterLast(filePath, '.')
  }

  /** `std::replace(begin, end, '\\', '/')` on a whole string. */
  function Slashed(s: string): (r: string)
    ensures |r| == |s| && '\\' !in r
    ensures forall k :: 0 <= k < |s| ==> r[k] == if s[k] == '\\' then '/' else s[k]
  {
    seq(|s|, k requires 0 <= k < |s| => if s[k] == '\\' then '/' else s[k])
  }

  /** What `getFileName(filePath)` returns: after turning every backslash into a
      slash, the text after the last slash. */
  function FileNameOf(filePath: string): (r: string)
  {
    AfterLast(Slashed(filePath), '/')
  }

  /** The file name holds no separator of either kind, and it is the tail of the
      path, stopping at the last separator. */
  lemma FileNameHasNoSeparator(filePath: string)
    ensures var r := FileNameOf(filePath);
      '/' !in r && '\\' !in r && |r| <= |filePath| && r == filePath[|filePath| - |r|..]
    ensures var r := FileNameOf(filePath);
      |r| < |filePath| ==> filePath[|filePath| - |r| - 1] in {'/', '\\'}
  {
    var t := Slashed(filePath);
    var last := LastIndexOf(t, '/');
    assert FileNameOf(filePath) == t[last + 1..];
    forall k | last < k < |filePath|
      ensures filePath[k] == t[k]
    {
      assert t[k] != '/';
    }
    assert filePath[last + 1..] == t[last + 1..];
  }

  /** A path with no separator is its own file name. */
  lemma FileNameOfPlainName(filePath: string)
    requires '/' !in filePath && '\\' !in filePath
    ensures FileNameOf(filePath) == filePath
  {
    assert Slashed(filePath) == filePath;
  }

  /** `getFileName(filePath)`: replaces the backslashes of a copy in place, then
      takes the text after the last slash. */
  method GetFileName(filePath: string) returns (r: string)
    ensures r == FileNameOf(filePath)
    ensures '/' !in r && '\\' !in r
  {
    var tmp := filePath;
    var k := 0;
    while k < |tmp|
      invariant 0 <= k <= |tmp| == |filePath|
      invariant forall q :: 0 <= q < k ==> tmp[q] == if filePath[q] == '\\' then '/' else filePath[q]
      invariant forall q :: k <= q < |tmp| ==> tmp[q] == filePath[q]
    {
      if tmp[k] == '\\' {
        tmp := tmp[k := '/'];
      }
      k := k + 1;
    }
    assert tmp == Slashed(filePath);
    r := AfterLast(tmp, '/');
    FileNameHasNoSeparator(filePath);
  }

  // ---------------------------------------------------------------------------
  // getFullFilePath

  /** The `int` of the source. */
  newtype int32 = x: int | -0x8000_0000 <= x < 0x8000_0000

  /** The character of a decimal digit. */
  function DigitChar(d: nat): (c: char)
    requires d < 10
    ensures '0' <= c <= '9'
  {
    ['0', '1', '2', '3', '4', '5', '6', '7', '8', '9'][d]
  }

  /** The value of a decimal digit character. */
  function DigitValue(c: char): (d: nat)
    requires '0' <= c <= '9'
    ensures d < 10
  {
    (c as int) - ('0' as int)
  }

  predicate IsDigits(s: string) {
    forall k :: 0 <= k < |s| ==> '0' <= s[k] <= '9'
  }

  /** The decimal digits of `n`, with no leading zero. */
  function Digits(n: nat): (r: string)
    ensures IsDigits(r) && |r| >= 1
    ensures r[0] == '0' ==> n == 0
  {
    if n < 10 then [DigitChar(n)] else Digits(n / 10) + [DigitChar(n % 10)]
  }

  /** The number a string of decimal digits spells. */
  function Value(s: string): nat
    requires IsDigits(s)
  {
    if s == [] then 0 else 10 * Value(s[..|s| - 1]) + DigitValue(s[|s| - 1])
  }

  lemma DigitRoundTrip(d: nat)
    requires d < 10
    ensures DigitValue(DigitChar(d)) == d
  {
  }

  /** Reading back the digits of `n` gives `n`. */
  lemma {:induction false} DigitsValue(n: nat)
    ensures Value(Digits(n)) == n
  {
    var r := Digits(n);
    if n < 10 {
      DigitRoundTrip(n);
      assert r[..|r| - 1] == [];
    } else {
      DigitsValue(n / 10);
      DigitRoundTrip(n % 10);
      assert r[..|r| - 1] == Digits(n / 10);
    }
  }

  /** Zeros in front of `s` up to `width` characters. */
  function ZeroPad(s: string, width: nat): (r: string)
    ensures |r| == if |s| < width then width else |s|
    ensures r[|r| - |s|..] == s
    ensures forall k :: 0 <= k < |r| - |s| ==> r[k] == '0'
  {
    if |s| < width then seq(width - |s|, _ => '0') + s else s
  }

  /** Leading zeros do not change the value. */
  lemma {:induction false} ZeroPadValue(s: string, width: nat)
    requires IsDigits(s)
    ensures IsDigits(ZeroPad(s, width)) && Value(ZeroPad(s, width)) == Value(s)
  {
    if |s| < width {
      LeadingZero(s, width - |s|);
    }
  }

  lemma {:induction false} LeadingZero(s: string, n: nat)
    requires IsDigits(s)
    ensures IsDigits(seq(n, _ => '0') + s) && Value(seq(n, _ => '0') + s) == Value(s)
    decreases |s|
  {
    var z := seq(n, _ => '0');
    if s == [] {
      assert z + s == z;
      AllZeros(n);
    } else {
      LeadingZero(s[..|s| - 1], n);
      assert (z + s)[..|z + s| - 1] == z + s[..|s| - 1];
    }
  }

  lemma {:induction false} AllZeros(n: nat)
    ensures IsDigits(seq(n, _ => '0')) && Value(seq(n, _ => '0')) == 0
  {
    if n > 0 {
      AllZeros(n - 1);
      assert seq(n, _ => '0')[..n - 1] == seq(n - 1, _ => '0');
    }
  }

  /** `%04d`: at least four characters, zeros after the sign. */
  function Format04(id: int32): (r: string)
    ensures |r| >= 4 && (r[0] == '-' <==> id < 0)
    ensures forall k :: 0 <= k < |r| ==> r[k] == '-' || '0' <= r[k] <= '9'
  {
    if id < 0 then "-" + ZeroPad(Digits(-(id as int)), 3) else ZeroPad(Digits(id as nat), 4)
  }

  /** `%04d` prints the number: a minus sign for a negative one, then decimal
      digits that read back as its magnitude, four characters at least and no
      more than the digits need beyond that. */
  lemma Format04Value(id: int32)
    ensures var r := Format04(id);
      if id < 0 then r[0] == '-' && IsDigits(r[1..]) && Value(r[1..]) == -(id as int)
      else IsDigits(r) && Value(r) == id as int
    ensures |Format04(id)| == if id < 0 then 1 + Max(3, |Digits(-(id as int))|) else Max(4, |Digits(id as int)|)
  {
    if id < 0 {
      var m: nat := -(id as int);
      var p := ZeroPad(Digits(m), 3);
      assert Format04(id) == "-" + p;
      PaddedValue(m, 3);
      assert Format04(id)[1..] == p;
    } else {
      PaddedValue(id as int, 4);
    }
  }

  /** The zero-padded digits of `n` read back as `n`. */
  lemma PaddedValue(n: nat, width: nat)
    ensures var r := ZeroPad(Digits(n), width);
      IsDigits(r) && Value(r) == n && |r| == Max(width, |Digits(n)|)
  {
    DigitsValue(n);
    ZeroPadValue(Digits(n), width);
  }

  function Max(a: nat, b: nat): nat {
    if a < b then b else a
  }

  /** What `%s` prints of an argument: a `const char*` up to its terminating NUL,
      and `c_str()` of a `std::string` likewise up to its first NUL. */
  function CString(s: string): (r: string)
    ensures r <= s && '\0' !in r
    ensures '\0' !in s ==> r == s
  {
    if s == [] || s[0] == '\0' then [] else [s[0]] + CString(s[1..])
  }

  /** `getFullFilePath(topFolder, dataSubFolder, fileName, fileExtension, fileID)`,
      formatted with `"%s/%s/%s.%04d.%s"`. The three overloads differ only in
      whether each string arrives as a `std::string` or as a `const char*`,
      and `%s` reads both as the C string, so this one definition models all
      three. */
  function FullFilePath(topFolder: string, dataSubFolder: string, fileName: string,
                        fileExtension: string, fileID: int32): (r: string)
    ensures '\0' !in r
    ensures CString(topFolder) + "/" <= r
    ensures |r| >= |CString(topFolder)| + |CString(dataSubFolder)| + |CString(fileName)| + |CString(fileExtension)| + 8
    ensures r[|r| - |CString(fileExtension)| - 1..] == "." + CString(fileExtension)
  {
    var top, sub, name, num, ext :=
      CString(topFolder), CString(dataSubFolder), CString(fileName), Format04(fileID), CString(fileExtension);
    JoinedShape(top, sub, name, num, ext);
    top + "/" + sub + "/" + name + "." + num + "." + ext
  }

  /** The pattern `"%s/%s/%s.%s.%s"` filled with NUL-free parts: NUL-free,
      starting with the first part and a slash, four characters longer than
      its parts and ending with a dot and the last part. */
  lemma JoinedShape(top: string, sub: string, name: string, num: string, ext: string)
    requires '\0' !in top && '\0' !in sub && '\0' !in name && '\0' !in ext
    requires forall k :: 0 <= k < |num| ==> num[k] == '-' || '0' <= num[k] <= '9'
    ensures var r := top + "/" + sub + "/" + name + "." + num + "." + ext;
      '\0' !in r && top + "/" <= r && |r| == |top| + |sub| + |name| + |num| + |ext| + 4
      && r[|r| - |ext| - 1..] == "." + ext
  {
    var p := top + "/" + sub + "/" + name + "." + num;
    var r := p + "." + ext;
    assert '\0' !in num by {
      forall k | 0 <= k < |num| ensures num[k] != '\0' { }
    }
    assert r[..|top| + 1] == top + "/";
    assert r[|p|..] == "." + ext;
  }

  /** For strings without NUL and a non-negative `fileID` the path is
      `top/sub/name.NNNN.ext`, with `fileID` zero-padded to four digits. */
  lemma FullFilePathParts(topFolder: string, dataSubFolder: string, fileName: string,
                          fileExtension: string, fileID: int32)
    requires '\0' !in topFolder && '\0' !in dataSubFolder && '\0' !in fileName && '\0' !in fileExtension
    requires fileID >= 0
    ensures var n := Format04(fileID);
      FullFilePath(topFolder, dataSubFolder, fileName, fileExtension, fileID)
        == topFolder + "/" + dataSubFolder + "/" + fileName + "." + n + "." + fileExtension
      && IsDigits(n) && |n| >= 4 && Value(n) == fileID as int
  {
    Format04Value(fileID);
  }

  /** `getFileExtension` of such a path gives back the extension it was built
      with, when that has no dot. */
  lemma FullFilePathExtension(topFolder: string, dataSubFolder: string, fileName: string,
                              fileExtension: string, fileID: int32)
    requires '\0' !in fileExtension && '.' !in fileExtension
    ensures FileExtension(FullFilePath(topFolder, dataSubFolder, fileName, fileExtension, fileID)) == fileExtension
  {
    var head := CString(topFolder) + "/" + CString(dataSubFolder) + "/" + CString(fileName) + "." + Format04(fileID);
    assert FullFilePath(topFolder, dataSubFolder, fileName, fileExtension, fileID) == head + "." + fileExtension;
    TailAfterLast(head, '.', fileExtension);
  }

  /** `getFileName` of such a path gives back `name.NNNN.ext`, when the name
      and the extension hold no separator. */
  lemma FullFilePathFileName(topFolder: string, dataSubFolder: string, fileName: string,
                             fileExtension: string, fileID: int32)
    requires '\0' !in topFolder && '\0' !in dataSubFolder && '\0' !in fileName && '\0' !in fileExtension
    requires '/' !in fileName && '\\' !in fileName && '/' !in fileExtension && '\\' !in fileExtension
    ensures FileNameOf(FullFilePath(topFolder, dataSubFolder, fileName, fileExtension, fileID))
      == fileName + "." + Format04(fileID) + "." + fileExtension
  {
    var n := Format04(fileID);
    var head := topFolder + "/" + dataSubFolder;
    var name := fileName + "." + n + "." + fileExtension;
    assert FullFilePath(topFolder, dataSubFolder, fileName, fileExtension, fileID) == head + "/" + name by {
      Regrouped(topFolder, dataSubFolder, fileName, n, fileExtension);
    }
    assert '/' !in name && '\\' !in name by {
      NumberHasNoSeparator(fileID);
    }
    FileNameAfterSeparator(head, name);
  }

  /** The fields of `"%s/%s/%s.%s.%s"` grouped as directory, slash, file name. */
  lemma Regrouped(top: string, sub: string, name: string, num: string, ext: string)
    ensures top + "/" + sub + "/" + name + "." + num + "." + ext
      == (top + "/" + sub) + "/" + (name + "." + num + "." + ext)
  {
  }

  /** `%04d` prints a sign and digits only. */
  lemma NumberHasNoSeparator(id: int32)
    ensures '/' !in Format04(id) && '\\' !in Format04(id)
  {
    Format04Value(id);
    var r := Format04(id);
    forall k | 0 <= k < |r|
      ensures r[k] != '/' && r[k] != '\\'
    {
      if id < 0 && k > 0 {
        assert r[k] == r[1..][k - 1];
      }
    }
  }

  /** Text after a final separator `c`, itself free of `c`, is what `AfterLast` keeps. */
  lemma TailAfterLast(head: string, c: char, tail: string)
    requires c !in tail
    ensures AfterLast(head + [c] + tail, c) == tail
  {
    var s := head + [c] + tail;
    assert s[|head|] == c;
    forall k | |head| < k < |s|
      ensures s[k] != c
    {
      assert s[k] == tail[k - |head| - 1];
    }
    assert LastIndexOf(s, c) == |head|;
    assert s[|head| + 1..] == tail;
  }

  /** The file name of `head/name` is `name` when `name` has no separator. */
  lemma FileNameAfterSeparator(head: string, name: string)
    requires '/' !in name && '\\' !in name
    ensures FileNameOf(head + "/" + name) == name
  {
    assert Slashed(head + "/" + name) == Slashed(head) + "/" + name;
    TailAfterLast(Slashed(head), '/', name);
  }

}
