/**
 * `convertWixImageUrl` (src/utils/content.ts): turns a media-library image
 * reference `wix:image://v1/<fileId>/<filename>#<params>` into a static CDN
 * address `https://static.wixstatic.com/media/<fileId>/v1/fit/w_<W>,h_<H>/<filename>`,
 * where W and H come from `originWidth=` / `originHeight=` in the params
 * (400 when absent).
 *
 * The regular expression `/wix:image:\/\/v1\/([^\/]+)\/([^#]+)#(.+)/` is
 * not anchored, so the match is searched for at every start position from
 * the left, as String.prototype.match does.
 */
module Content {
  import opened Collections
  import opened Strings

  const WixPrefix: string := "wix:image://v1/"
  const MediaBase: string := "https://static.wixstatic.com/media/"
  const DefaultDimension: nat := 400
  const WidthKey: string := "originWidth="
  const HeightKey: string := "originHeight="

  /** The three capture groups of a match. */
  datatype WixImageRef = WixImageRef(fileId: string, filename: string, params: string)

  /** The characters that `.` does not match in a JavaScript regular expression. */
  predicate IsLineTerminator(c: char)
  {
    c == '\n' || c == '\r' || c == '\U{2028}' || c == '\U{2029}'
  }

  /** The longest prefix without a line terminator: what a greedy `.+` / `.*` takes. */
  function LineRun(s: string): (r: string)
    ensures r <= s
    ensures forall k :: 0 <= k < |r| ==> !IsLineTerminator(r[k])
    ensures |r| < |s| ==> IsLineTerminator(s[|r|])
  {
    if s != [] && !IsLineTerminator(s[0]) then [s[0]] + LineRun(s[1..]) else []
  }

  /** What the three groups can hold: `[^\/]+`, `[^#]+` and `.+`. */
  predicate ValidRef(p: WixImageRef)
  {
    && |p.fileId| > 0 && '/' !in p.fileId
    && |p.filename| > 0 && '#' !in p.filename
    && |p.params| > 0 && forall k :: 0 <= k < |p.params| ==> !IsLineTerminator(p.params[k])
  }

  /** The text a match covers. */
  function Format(p: WixImageRef): string
  {
    WixPrefix + (p.fileId + (['/'] + (p.filename + (['#'] + p.params))))
  }

  /** Splits `s` at the first `c`: the text before it and the text after it. */
  function SplitAt(s: string, c: char): (r: Option<(string, string)>)
    ensures r.None? <==> c !in s
    ensures r.Some? ==> s == r.value.0 + ([c] + r.value.1) && c !in r.value.0
  {
    if c !in s then None
    else
      var i := FirstIndex(s, c);
      assert s == s[..i] + ([c] + s[i + 1..]);
      Some((s[..i], s[i + 1..]))
  }

  lemma SplitAtFirst(a: string, c: char, b: string)
    requires c !in a
    ensures SplitAt(a + ([c] + b), c) == Some((a, b))
  {
    var s := a + ([c] + b);
    assert s[|a|] == c;
    FirstIndexAt(s, c, |a|);
    assert s[..|a|] == a;
    assert s[|a| + 1..] == b;
  }

  /** The regular expression matched at the very start of `s`. */
  function MatchAt(s: string): (r: Option<WixImageRef>)
    ensures r.Some? ==> ValidRef(r.value)
  {
    if WixPrefix <= s then MatchGroups(s[|WixPrefix|..]) else None
  }

  /** The three groups, matched right after `wix:image://v1/`. */
  function MatchGroups(r: string): (m: Option<WixImageRef>)
    ensures m.Some? ==> ValidRef(m.value)
  {
    var first := SplitAt(r, '/');
    if first.None? || first.value.0 == [] then None
    else MatchTail(first.value.0, first.value.1)
  }

  /** The second and third groups, matched after the `/` that ends the first. */
  function MatchTail(fileId: string, after: string): (m: Option<WixImageRef>)
    ensures m.Some? ==> m.value.fileId == fileId && |m.value.filename| > 0 && '#' !in m.value.filename
    ensures m.Some? ==> |m.value.params| > 0 && forall k :: 0 <= k < |m.value.params| ==> !IsLineTerminator(m.value.params[k])
  {
    var second := SplitAt(after, '#');
    if second.None? || second.value.0 == [] || LineRun(second.value.1) == [] then None
    else Some(WixImageRef(fileId, second.value.0, LineRun(second.value.1)))
  }

  /** The text the three groups and their separators cover. */
  function GroupsText(p: WixImageRef): string
  {
    p.fileId + (['/'] + (p.filename + (['#'] + p.params)))
  }

  lemma Assoc(a: string, b: string, c: string)
    ensures (a + b) + c == a + (b + c)
  {
  }

  lemma PrefixOfAppend(a: string, b: string, c: string)
    requires b <= c
    ensures a + b <= a + c
    ensures |b| < |c| ==> (a + c)[|a + b|] == c[|b|]
  {
    assert (a + c)[..|a + b|] == a + b;
  }

  /** The groups of a match cover a prefix of the text, ending at a line end or at the end. */
  lemma MatchGroupsSound(r: string)
    requires MatchGroups(r).Some?
    ensures GroupsText(MatchGroups(r).value) <= r
    ensures var n := |GroupsText(MatchGroups(r).value)|; n == |r| || IsLineTerminator(r[n])
  {
    var p := MatchGroups(r).value;
    var after := SplitAt(r, '/').value.1;
    assert r == p.fileId + (['/'] + after);
    MatchTailSound(p.fileId, after);
    var t := p.filename + (['#'] + p.params);
    PrefixOfAppend(['/'], t, after);
    PrefixOfAppend(p.fileId, ['/'] + t, ['/'] + after);
  }

  lemma MatchTailSound(fileId: string, after: string)
    requires MatchTail(fileId, after).Some?
    ensures var p := MatchTail(fileId, after).value; p.filename + (['#'] + p.params) <= after
    ensures var p := MatchTail(fileId, after).value; var n := |p.filename + (['#'] + p.params)|;
      n == |after| || IsLineTerminator(after[n])
  {
    var p := MatchTail(fileId, after).value;
    var tail := SplitAt(after, '#').value.1;
    assert after == p.filename + (['#'] + tail);
    PrefixOfAppend(['#'], p.params, tail);
    PrefixOfAppend(p.filename, ['#'] + p.params, ['#'] + tail);
  }

  lemma MatchGroupsOfFormat(p: WixImageRef, rest: string)
    requires ValidRef(p)
    requires rest == [] || IsLineTerminator(rest[0])
    ensures MatchGroups(p.fileId + (['/'] + (p.filename + (['#'] + (p.params + rest))))) == Some(p)
  {
    var after := p.filename + (['#'] + (p.params + rest));
    SplitAtFirst(p.fileId, '/', after);
    MatchTailOfFormat(p, rest);
  }

  lemma MatchTailOfFormat(p: WixImageRef, rest: string)
    requires ValidRef(p)
    requires rest == [] || IsLineTerminator(rest[0])
    ensures MatchTail(p.fileId, p.filename + (['#'] + (p.params + rest))) == Some(p)
  {
    SplitAtFirst(p.filename, '#', p.params + rest);
    LineRunOf(p.params, rest);
  }

  /** A match found at the start of `s` covers a prefix of `s` that ends at a line end or at the end of `s`. */
  lemma MatchAtSound(s: string)
    requires MatchAt(s).Some?
    ensures Format(MatchAt(s).value) <= s
    ensures var n := |Format(MatchAt(s).value)|; n == |s| || IsLineTerminator(s[n])
  {
    var r := s[|WixPrefix|..];
    PrefixSplit(WixPrefix, s);
    MatchGroupsSound(r);
    var p := MatchAt(s).value;
    PrefixOfAppend(WixPrefix, GroupsText(p), r);
  }

  lemma PrefixSplit(a: string, s: string)
    requires a <= s
    ensures s == a + s[|a|..]
  {
  }

  lemma MatchAtPrefixed(r: string)
    ensures MatchAt(WixPrefix + r) == MatchGroups(r)
  {
    assert (WixPrefix + r)[|WixPrefix|..] == r;
  }

  /** Parsing a formatted reference gives it back (the match is unique). */
  lemma MatchAtFormat(p: WixImageRef, rest: string)
    requires ValidRef(p)
    requires rest == [] || IsLineTerminator(rest[0])
    ensures MatchAt(Format(p) + rest) == Some(p)
  {
    var r := p.fileId + (['/'] + (p.filename + (['#'] + (p.params + rest))));
    MatchGroupsOfFormat(p, rest);
    MatchAtPrefixed(r);
    var t1 := ['#'] + p.params;
    var t2 := p.filename + t1;
    var t3 := ['/'] + t2;
    Assoc(['#'], p.params, rest);
    Assoc(p.filename, t1, rest);
    Assoc(['/'], t2, rest);
    Assoc(p.fileId, t3, rest);
    Assoc(WixPrefix, GroupsText(p), rest);
  }

  lemma {:induction false} LineRunOf(a: string, rest: string)
    requires forall k :: 0 <= k < |a| ==> !IsLineTerminator(a[k])
    requires rest == [] || IsLineTerminator(rest[0])
    ensures LineRun(a + rest) == a
  {
    if a == [] {
      assert a + rest == rest;
    } else {
      assert (a + rest)[1..] == a[1..] + rest;
      LineRunOf(a[1..], rest);
    }
  }

  /**
   * The leftmost start position at which `matchAt` succeeds, as
   * `String.prototype.match` scans an unanchored expression.
   */
  function FindLeftmost<T>(s: string, matchAt: string -> Option<T>): Option<T>
    decreases |s|
  {
    if s == [] then None
    else match matchAt(s)
      case Some(p) => Some(p)
      case None => FindLeftmost(s[1..], matchAt)
  }

  lemma {:induction false} FindLeftmostSpec<T>(s: string, matchAt: string -> Option<T>)
    ensures FindLeftmost(s, matchAt).None? <==> forall i :: 0 <= i < |s| ==> matchAt(s[i..]).None?
    ensures FindLeftmost(s, matchAt).Some? ==>
      exists i :: 0 <= i < |s| && matchAt(s[i..]) == FindLeftmost(s, matchAt)
        && forall j :: 0 <= j < i ==> matchAt(s[j..]).None?
    decreases |s|
  {
    if s != [] {
      assert s[0..] == s;
      if matchAt(s).None? {
        FindLeftmostSpec(s[1..], matchAt);
        forall i | 0 <= i < |s| - 1 ensures s[1..][i..] == s[i + 1..] { }
        if FindLeftmost(s, matchAt).Some? {
          var i :| 0 <= i < |s| - 1 && matchAt(s[1..][i..]) == FindLeftmost(s[1..], matchAt)
            && forall j :: 0 <= j < i ==> matchAt(s[1..][j..]).None?;
          assert matchAt(s[i + 1..]) == FindLeftmost(s, matchAt);
          forall j | 0 <= j < i + 1 ensures matchAt(s[j..]).None? {
            if j > 0 {
              assert matchAt(s[1..][j - 1..]).None?;
            }
          }
        } else {
          forall i | 0 <= i < |s| ensures matchAt(s[i..]).None? {
            if i > 0 {
              assert matchAt(s[1..][i - 1..]).None?;
            }
          }
        }
      }
    }
  }

  /** `wixUrl.match(regex)`. */
  function FindMatch(s: string): Option<WixImageRef>
  {
    FindLeftmost(s, MatchAt)
  }

  /** `originWidth=(\d+)` / `originHeight=(\d+)` in the params, parsed, or the default. */
  function Dimension(params: string, key: string): (d: nat)
    ensures FindKeyDigits(params, key).None? ==> d == DefaultDimension
    ensures FindKeyDigits(params, key).Some? ==> d == FindKeyDigits(params, key).value
  {
    match FindKeyDigits(params, key)
    case Some(n) => n
    case None => DefaultDimension
  }

  /** The static address built from a match, with both dimensions filled in. */
  function StaticUrl(p: WixImageRef): (u: string)
    ensures MediaBase <= u
  {
    var path := p.fileId + ("/v1/fit/w_" + (NatToString(Dimension(p.params, WidthKey))
      + (",h_" + (NatToString(Dimension(p.params, HeightKey)) + (['/'] + p.filename)))));
    assert (MediaBase + path)[..|MediaBase|] == MediaBase;
    MediaBase + path
  }

  /** `convertWixImageUrl(wixUrl)`; `None` stands for JavaScript's null. */
  function ConvertWixImageUrl(wixUrl: Option<string>): (r: Option<string>)
    ensures (wixUrl.None? || wixUrl.value == "") <==> r.None?
    ensures wixUrl.Some? && wixUrl.value != "" && FindMatch(wixUrl.value).None? ==> r == wixUrl
    ensures wixUrl.Some? && FindMatch(wixUrl.value).Some? ==> r.Some? && MediaBase <= r.value
  {
    if wixUrl.None? || wixUrl.value == "" then None
    else if FindMatch(wixUrl.value).None? then wixUrl
    else Some(StaticUrl(FindMatch(wixUrl.value).value))
  }

  /** The params text an upload writes: both original dimensions. */
  function DimensionParams(w: nat, h: nat): string
  {
    WidthKey + (NatToString(w) + (['&'] + (HeightKey + NatToString(h))))
  }

  /** Both dimensions are read back from the params text they were written into. */
  lemma DimensionsOfParams(w: nat, h: nat)
    ensures Dimension(DimensionParams(w, h), WidthKey) == w
    ensures Dimension(DimensionParams(w, h), HeightKey) == h
  {
    WidthOfParams(w, h);
    HeightOfParams(w, h);
  }

  lemma WidthOfParams(w: nat, h: nat)
    ensures FindKeyDigits(DimensionParams(w, h), WidthKey) == Some(w)
  {
    var hrest := HeightKey + NatToString(h);
    Assoc(WidthKey, NatToString(w), ['&'] + hrest);
    FindKeyDigitsOfRendered(WidthKey, w, ['&'] + hrest);
  }

  lemma HeightOfParams(w: nat, h: nat)
    ensures FindKeyDigits(DimensionParams(w, h), HeightKey) == Some(h)
  {
    var hrest := HeightKey + NatToString(h);
    var pre := WidthKey + NatToString(w) + ['&'];
    ParamsSplit(w, h);
    assert hrest == HeightKey + NatToString(h) + [];
    FindKeyDigitsOfRendered(HeightKey, h, []);
    NoCapitalHBeforeHeight(w, h);
    FindKeyDigitsDrop(pre, hrest, HeightKey);
  }

  lemma ParamsSplit(w: nat, h: nat)
    ensures DimensionParams(w, h) == (WidthKey + NatToString(w) + ['&']) + (HeightKey + NatToString(h))
  {
    var hrest := HeightKey + NatToString(h);
    Assoc(WidthKey, NatToString(w), ['&'] + hrest);
    Assoc(WidthKey + NatToString(w), ['&'], hrest);
  }

  /** Before the height key, no `H` can start `originHeight=` (its seventh letter). */
  lemma NoCapitalHBeforeHeight(w: nat, h: nat)
    ensures var pre := WidthKey + NatToString(w) + ['&']; var t := pre + (HeightKey + NatToString(h));
      forall k :: 6 <= k < |pre| + 6 && k < |t| ==> t[k] != 'H'
  {
    var ds := NatToString(w);
    var pre := WidthKey + ds + ['&'];
    var t := pre + (HeightKey + NatToString(h));
    forall k | 6 <= k < |pre| + 6 && k < |t| ensures t[k] != 'H' {
      if k < |WidthKey| {
        assert t[k] == WidthKey[k];
      } else if k < |pre| - 1 {
        assert t[k] == ds[k - |WidthKey|];
      } else if k < |pre| {
        assert t[k] == '&';
      } else {
        assert t[k] == HeightKey[k - |pre|];
      }
    }
  }

  /** A well-formed reference is converted with the dimensions written in it. */
  lemma ConvertFormatted(p: WixImageRef, w: nat, h: nat)
    requires ValidRef(p)
    requires p.params == DimensionParams(w, h)
    ensures ConvertWixImageUrl(Some(Format(p))) == Some(MediaBase + (p.fileId + ("/v1/fit/w_"
      + (NatToString(w) + (",h_" + (NatToString(h) + (['/'] + p.filename)))))))
  {
    var s := Format(p);
    MatchAtFormat(p, []);
    assert s + [] == s;
    assert FindMatch(s) == Some(p);
    DimensionsOfParams(w, h);
  }

  /**
   * Whatever the params hold, a match converts to the static address made of
   * the file id, the two dimensions read from the params (400 for one that
   * is missing) and the file name.
   */
  lemma ConvertMatchedAddress(s: string)
    requires FindMatch(s).Some?
    ensures var p := FindMatch(s).value;
      var w := Dimension(p.params, WidthKey); var h := Dimension(p.params, HeightKey);
      && (FindKeyDigits(p.params, WidthKey).None? ==> w == 400)
      && (FindKeyDigits(p.params, HeightKey).None? ==> h == 400)
      && ConvertWixImageUrl(Some(s)) == Some(MediaBase + (p.fileId + ("/v1/fit/w_"
           + (NatToString(w) + (",h_" + (NatToString(h) + (['/'] + p.filename)))))))
  {
    assert s != "" by {
      if s == "" { FindLeftmostSpec(s, MatchAt); }
    }
  }

  /** Params that carry only the width: the height falls back to 400. */
  lemma ConvertWithoutHeight(p: WixImageRef, w: nat)
    requires ValidRef(p)
    requires p.params == WidthKey + NatToString(w)
    ensures ConvertWixImageUrl(Some(Format(p))) == Some(MediaBase + (p.fileId + ("/v1/fit/w_"
      + (NatToString(w) + (",h_" + ("400" + (['/'] + p.filename)))))))
  {
    var s := Format(p);
    MatchAtFormat(p, []);
    assert s + [] == s;
    ConvertMatchedAddress(s);
    WidthOnlyDimensions(w);
    FourHundred();
  }

  lemma FourHundred()
    ensures NatToString(400) == "400"
  {
    assert NatToString(4) == "4";
    assert NatToString(40) == NatToString(4) + ['0'];
  }

  /** Width-only params give their width back, and 400 for the height. */
  lemma WidthOnlyDimensions(w: nat)
    ensures Dimension(WidthKey + NatToString(w), WidthKey) == w
    ensures Dimension(WidthKey + NatToString(w), HeightKey) == 400
  {
    assert WidthKey + NatToString(w) + [] == WidthKey + NatToString(w);
    FindKeyDigitsOfRendered(WidthKey, w, []);
    NoHeightKey(w);
  }

  /** Width-only params hold no `H`, so the height key never occurs in them. */
  lemma NoHeightKey(w: nat)
    ensures FindKeyDigits(WidthKey + NatToString(w), HeightKey).None?
  {
    var ds := NatToString(w);
    var t := WidthKey + ds;
    forall k | 0 <= k < |t| ensures t[k] != 'H' {
      if k < |WidthKey| {
        assert t[k] == WidthKey[k];
      } else {
        assert t[k] == ds[k - |WidthKey|];
      }
    }
    forall i | 0 <= i < |t| ensures !KeyDigitsAt(t, HeightKey, i) {
      if i + |HeightKey| < |t| {
        assert t[i..i + |HeightKey|][6] == t[i + 6] != 'H';
        assert HeightKey[6] == 'H';
      }
    }
    FindKeyDigitsNone(t, HeightKey);
  }

  /** Dropping a prefix in which `key` cannot start leaves the search result unchanged. */
  lemma {:induction false} FindKeyDigitsDrop(pre: string, rest: string, key: string)
    requires |key| > 6 && key[6] == 'H'
    requires forall k :: 6 <= k < |pre| + 6 && k < |pre + rest| ==> (pre + rest)[k] != 'H'
    ensures FindKeyDigits(pre + rest, key) == FindKeyDigits(rest, key)
    decreases |pre|
  {
    if pre == [] {
      assert pre + rest == rest;
    } else {
      var s := pre + rest;
      assert s[1..] == pre[1..] + rest;
      assert !(key <= s) by {
        assert |s| <= 6 || s[6] != 'H';
      }
      forall k | 6 <= k < |pre[1..]| + 6 && k < |pre[1..] + rest|
        ensures (pre[1..] + rest)[k] != 'H'
      {
        assert (pre[1..] + rest)[k] == s[k + 1];
      }
      FindKeyDigitsDrop(pre[1..], rest, key);
    }
  }

  /** The example written beside the function in the source, split at the groups. */
  lemma DocumentedExample()
    ensures ConvertWixImageUrl(Some("wix:image://v1/" + "4404aa_fa63dae8ad044bbbb9f2014afd56b3bd~mv2.png"
      + "/" + "image%2011_edited.png" + "#" + "originWidth=378&originHeight=358"))
      == Some("https://static.wixstatic.com/media/" + "4404aa_fa63dae8ad044bbbb9f2014afd56b3bd~mv2.png"
      + "/v1/fit/w_" + "378" + ",h_" + "358" + "/" + "image%2011_edited.png")
  {
    var p := WixImageRef("4404aa_fa63dae8ad044bbbb9f2014afd56b3bd~mv2.png", "image%2011_edited.png", "originWidth=378&originHeight=358");
    ExampleRefValid(p);
    ExampleParams(p);
    ConvertFormatted(p, 378, 358);
    FormatRegrouped(p);
    ExampleRendered();
    StaticRegrouped(MediaBase, p.fileId, "378", "358", p.filename);
  }

  lemma ExampleRefValid(p: WixImageRef)
    requires p == WixImageRef("4404aa_fa63dae8ad044bbbb9f2014afd56b3bd~mv2.png", "image%2011_edited.png", "originWidth=378&originHeight=358")
    ensures ValidRef(p)
  {
    ExampleFileId();
    ExampleFileIdParts();
    ExampleOtherParts();
  }

  lemma ExampleFileId()
    ensures "4404aa_fa63dae8ad044bbbb9f2014afd56b3bd~mv2.png" == "4404aa_fa63dae8ad044bbbb9f" + "2014afd56b3bd~mv2.png"
  {
  }

  lemma ExampleFileIdParts()
    ensures '/' !in "4404aa_fa63dae8ad044bbbb9f" && '/' !in "2014afd56b3bd~mv2.png"
  {
  }

  lemma ExampleOtherParts()
    ensures '#' !in "image%2011_edited.png"
    ensures forall k :: 0 <= k < |"originWidth=378&originHeight=358"| ==> !IsLineTerminator("originWidth=378&originHeight=358"[k])
  {
  }

  lemma ExampleRendered()
    ensures NatToString(378) == "378" && NatToString(358) == "358"
  {
    assert NatToString(37) == "37";
    assert NatToString(35) == "35";
  }

  lemma ExampleParams(p: WixImageRef)
    requires p.params == "originWidth=378&originHeight=358"
    ensures p.params == DimensionParams(378, 358)
  {
    ExampleRendered();
    ParamsStep1();
    ParamsStep2();
    ParamsStep3();
  }

  lemma ParamsStep1()
    ensures ['&'] + (HeightKey + "358") == "&originHeight=358"
  {
    assert HeightKey + "358" == "originHeight=358";
  }

  lemma ParamsStep2()
    ensures "378" + "&originHeight=358" == "378&originHeight=358"
  {
  }

  lemma ParamsStep3()
    ensures WidthKey + "378&originHeight=358" == "originWidth=378&originHeight=358"
  {
  }

  lemma FormatRegrouped(p: WixImageRef)
    ensures Format(p) == WixPrefix + p.fileId + "/" + p.filename + "#" + p.params
  {
    var g := p.fileId + (['/'] + (p.filename + (['#'] + p.params)));
    Assoc(WixPrefix, p.fileId, ['/'] + (p.filename + (['#'] + p.params)));
    Assoc(WixPrefix + p.fileId, ['/'], p.filename + (['#'] + p.params));
    Assoc(WixPrefix + p.fileId + ['/'], p.filename, ['#'] + p.params);
    Assoc(WixPrefix + p.fileId + ['/'] + p.filename, ['#'], p.params);
  }

  lemma StaticRegrouped(base: string, fileId: string, w: string, h: string, filename: string)
    ensures base + (fileId + ("/v1/fit/w_" + (w + (",h_" + (h + (['/'] + filename))))))
      == base + fileId + "/v1/fit/w_" + w + ",h_" + h + "/" + filename
  {
    Assoc(base, fileId, "/v1/fit/w_" + (w + (",h_" + (h + (['/'] + filename)))));
    Assoc(base + fileId, "/v1/fit/w_", w + (",h_" + (h + (['/'] + filename))));
    Assoc(base + fileId + "/v1/fit/w_", w, ",h_" + (h + (['/'] + filename)));
    Assoc(base + fileId + "/v1/fit/w_" + w, ",h_", h + (['/'] + filename));
    Assoc(base + fileId + "/v1/fit/w_" + w + ",h_", h, ['/'] + filename);
    Assoc(base + fileId + "/v1/fit/w_" + w + ",h_" + h, ['/'], filename);
  }
}
