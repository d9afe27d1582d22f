/**
 * The three rule callbacks of the expression simplifier and the order in
 * which the simplifier registers them. Each callback receives the node
 * before its children were rewritten (`pre`), the node after (`post`) and a
 * record of what the matcher bound; it returns a replacement, `post` itself
 * to decline, or a fatal check failure.
 */
module SimplifyExpr {
  import opened IR
  import opened Patterns

  // ---------------------------------------------------------------------
  // Reshape fusion: reshape(reshape(x)) ~> reshape(x, shape of the outer node)

  /** What the matcher bound for `reshape1(reshape2(x))`. */
  datatype ReshapeMatch = ReshapeMatch(x: Expr)

  predicate AllKnown(shape: seq<Dim>)
  {
    forall i :: 0 <= i < |shape| ==> shape[i].Known?
  }

  /** The constant extents of a fully constant shape, in order. */
  function KnownValues(shape: seq<Dim>): (r: seq<int>)
    requires AllKnown(shape)
    ensures |r| == |shape|
    ensures forall i :: 0 <= i < |shape| ==> shape[i] == Known(r[i])
  {
    if shape == [] then []
    else KnownValues(shape[..|shape| - 1]) + [shape[|shape| - 1].value]
  }

  method SimplifyReshapeCallback(pre: Expr, post: Expr, m: ReshapeMatch, typeOf: Expr -> Type)
    returns (r: Outcome<Expr>)
    ensures r.Fatal? <==> !typeOf(pre).TensorType?
    ensures typeOf(pre).TensorType? && !AllKnown(typeOf(pre).shape) ==> r == Ok(post)
    ensures typeOf(pre).TensorType? && AllKnown(typeOf(pre).shape) ==>
              r == Ok(MakeReshape(m.x, KnownValues(typeOf(pre).shape)))
  {
    var ty := typeOf(pre);
    if !ty.TensorType? {
      return Fatal("checked type of the outer reshape is not a tensor type");
    }
    var constShape := true;
    var newshape: seq<int> := [];
    var i := 0;
    while i < |ty.shape|
      invariant 0 <= i <= |ty.shape|
      invariant AllKnown(ty.shape[..i])
      invariant newshape == KnownValues(ty.shape[..i])
      invariant constShape
    {
      if !ty.shape[i].Known? {
        constShape := false;
        break;
      }
      assert ty.shape[..i + 1][..i] == ty.shape[..i];
      newshape := newshape + [ty.shape[i].value];
      i := i + 1;
    }
    if constShape {
      assert ty.shape[..i] == ty.shape;
      return Ok(MakeReshape(m.x, newshape));
    }
    return Ok(post);
  }

  // ---------------------------------------------------------------------
  // Pad/convolution fusion: conv(nn.pad(x), w) ~> conv(x, w) with merged padding

  /** What the matcher bound for `conv(nn.pad(x), w)`; `bound1d` etc. say
      which convolution alternative matched. */
  datatype ConvPadMatch = ConvPadMatch(x: Expr, w: Expr, pad: Expr, bound1d: bool, bound2d: bool, bound3d: bool)

  /** Layout letters of the image (spatial) axes. */
  predicate IsImageDim(c: char)
  {
    c == 'H' || c == 'W' || c == 'D'
  }

  /** The element-wise sum of two paddings of equal length. */
  function AddPadding(padding: seq<int>, oldPadding: seq<int>): seq<int>
    requires |padding| == |oldPadding|
  {
    seq(|padding|, i requires 0 <= i < |padding| => padding[i] + oldPadding[i])
  }

  /** The attributes MakeConvAttrs builds: fatal on a length mismatch,
      otherwise `prior` with its padding increased element-wise. */
  function MergeConvAttrs(prior: ConvAttrs, padding: seq<int>): (r: Outcome<ConvAttrs>)
    ensures r.Ok? <==> |padding| == |prior.padding|
    ensures r.Ok? ==> r.value == prior.(padding := r.value.padding)
    ensures r.Ok? ==> |r.value.padding| == |padding|
    ensures r.Ok? ==> forall i :: 0 <= i < |padding| ==> r.value.padding[i] == padding[i] + prior.padding[i]
  {
    if |padding| != |prior.padding| then Fatal("padding extents differ")
    else Ok(prior.(padding := AddPadding(padding, prior.padding)))
  }

  method MakeConvAttrs(prior: ConvAttrs, padding: seq<int>) returns (r: Outcome<ConvAttrs>)
    ensures r.Ok? <==> |padding| == |prior.padding|
    ensures r.Ok? ==> r.value == prior.(padding := r.value.padding)
    ensures r.Ok? ==> |r.value.padding| == |padding|
    ensures r.Ok? ==> forall i :: 0 <= i < |padding| ==> r.value.padding[i] == padding[i] + prior.padding[i]
    ensures r == MergeConvAttrs(prior, padding)
  {
    if |padding| != |prior.padding| {
      return Fatal("padding extents differ");
    }
    var combined: seq<int> := [];
    var i := 0;
    while i < |padding|
      invariant 0 <= i <= |padding|
      invariant |combined| == i
      invariant forall k :: 0 <= k < i ==> combined[k] == padding[k] + prior.padding[k]
    {
      combined := combined + [padding[i] + prior.padding[i]];
      i := i + 1;
    }
    assert combined == AddPadding(padding, prior.padding);
    return Ok(prior.(padding := combined));
  }

  /** Every pad width of every non-image axis is zero. */
  predicate NonImageUnpadded(layout: string, padWidth: seq<seq<int>>)
    requires |layout| == |padWidth|
  {
    forall i, j :: 0 <= i < |padWidth| && !IsImageDim(layout[i]) && 0 <= j < |padWidth[i]| ==> padWidth[i][j] == 0
  }

  /** The rows of the image axes are at least as long as the first row, so
      that reading column j < |padWidth[0]| of them stays in range. */
  predicate ImageRowsCover(layout: string, padWidth: seq<seq<int>>)
    requires |layout| == |padWidth|
  {
    |padWidth| > 0 &&
    forall i :: 0 <= i < |padWidth| && IsImageDim(layout[i]) ==> |padWidth[0]| <= |padWidth[i]|
  }

  /** The positions of the image axes among the first n axes, in layout order. */
  function ImageAxes(layout: string, n: nat): (r: seq<nat>)
    requires n <= |layout|
    ensures forall t :: 0 <= t < |r| ==> r[t] < n && IsImageDim(layout[r[t]])
  {
    if n == 0 then []
    else ImageAxes(layout, n - 1) + (if IsImageDim(layout[n - 1]) then [n - 1] else [])
  }

  /** Column j of the pad widths, restricted to the image axes among the first n. */
  function ImageColumn(layout: string, padWidth: seq<seq<int>>, j: nat, n: nat): seq<int>
    requires |layout| == |padWidth| && n <= |padWidth|
    requires forall i :: 0 <= i < n && IsImageDim(layout[i]) ==> j < |padWidth[i]|
  {
    if n == 0 then []
    else ImageColumn(layout, padWidth, j, n - 1)
         + (if IsImageDim(layout[n - 1]) then [padWidth[n - 1][j]] else [])
  }

  /** Columns 0 .. cols-1 of the image pad widths, one after the other. */
  function ImagePadding(layout: string, padWidth: seq<seq<int>>, cols: nat): seq<int>
    requires |layout| == |padWidth|
    requires forall i :: 0 <= i < |padWidth| && IsImageDim(layout[i]) ==> cols <= |padWidth[i]|
  {
    if cols == 0 then []
    else ImagePadding(layout, padWidth, cols - 1) + ImageColumn(layout, padWidth, cols - 1, |padWidth|)
  }

  /** What GetAttrs computes from the pad attributes and the conv attributes. */
  function FoldPadding(param: PadAttrs, conv: ConvAttrs): (r: Outcome<Option<ConvAttrs>>)
    ensures r == Ok(None) <==>
              |conv.dataLayout| == |param.padWidth| && !NonImageUnpadded(conv.dataLayout, param.padWidth)
    ensures r.Ok? && r.value.Some? ==>
              |conv.dataLayout| == |param.padWidth| && NonImageUnpadded(conv.dataLayout, param.padWidth) &&
              r.value.value == conv.(padding := r.value.value.padding)
  {
    var layout, pw := conv.dataLayout, param.padWidth;
    if |layout| != |pw| then Fatal("data layout and pad width extents differ")
    else if !NonImageUnpadded(layout, pw) then Ok(None)
    else if !ImageRowsCover(layout, pw) then Fatal("pad width index out of range")
    else
      match MergeConvAttrs(conv, ImagePadding(layout, pw, |pw[0]|))
      case Fatal(reason) => Fatal(reason)
      case Ok(merged) => Ok(Some(merged))
  }

  /** The first loop of GetAttrs: is every non-image axis unpadded? */
  method CheckNonImageUnpadded(layout: string, pw: seq<seq<int>>) returns (unpadded: bool)
    requires |layout| == |pw|
    ensures unpadded == NonImageUnpadded(layout, pw)
  {
    var i := 0;
    while i < |pw|
      invariant 0 <= i <= |pw|
      invariant forall a, b :: 0 <= a < i && !IsImageDim(layout[a]) && 0 <= b < |pw[a]| ==> pw[a][b] == 0
    {
      if !IsImageDim(layout[i]) {
        var j := 0;
        while j < |pw[i]|
          invariant 0 <= j <= |pw[i]|
          invariant forall b :: 0 <= b < j ==> pw[i][b] == 0
        {
          if pw[i][j] != 0 {
            return false;
          }
          j := j + 1;
        }
      }
      i := i + 1;
    }
    return true;
  }

  /** Column j of the image pad widths, or None when an image axis has no
      entry j. */
  method CollectColumn(layout: string, pw: seq<seq<int>>, j: nat) returns (r: Option<seq<int>>)
    requires |layout| == |pw|
    ensures r.Some? <==> forall a :: 0 <= a < |pw| && IsImageDim(layout[a]) ==> j < |pw[a]|
    ensures r.Some? ==> r.value == ImageColumn(layout, pw, j, |pw|)
  {
    var column: seq<int> := [];
    var k := 0;
    while k < |pw|
      invariant 0 <= k <= |pw|
      invariant forall a :: 0 <= a < k && IsImageDim(layout[a]) ==> j < |pw[a]|
      invariant column == ImageColumn(layout, pw, j, k)
    {
      if IsImageDim(layout[k]) {
        if j >= |pw[k]| {
          return None;
        }
        column := column + [pw[k][j]];
      }
      k := k + 1;
    }
    return Some(column);
  }

  /** The second loop of GetAttrs: the image pad widths, column by column;
      fatal when a row is shorter than the first one or there is no row. */
  method CollectImagePadding(layout: string, pw: seq<seq<int>>) returns (r: Outcome<seq<int>>)
    requires |layout| == |pw|
    ensures r.Ok? <==> ImageRowsCover(layout, pw)
    ensures r.Ok? ==> r.value == ImagePadding(layout, pw, |pw[0]|)
  {
    if |pw| == 0 {
      return Fatal("pad width index out of range");
    }
    // Before-paddings of the image axes in layout order, then after-paddings.
    var padding: seq<int> := [];
    var j := 0;
    while j < |pw[0]|
      invariant 0 <= j <= |pw[0]|
      invariant forall a :: 0 <= a < |pw| && IsImageDim(layout[a]) ==> j <= |pw[a]|
      invariant padding == ImagePadding(layout, pw, j)
    {
      var column := CollectColumn(layout, pw, j);
      if column.None? {
        return Fatal("pad width index out of range");
      }
      padding := padding + column.value;
      j := j + 1;
    }
    return Ok(padding);
  }

  method GetAttrs(param: PadAttrs, attrs: Option<ConvAttrs>) returns (r: Outcome<Option<ConvAttrs>>)
    ensures attrs.None? ==> r.Fatal?
    ensures attrs.Some? ==> r == FoldPadding(param, attrs.value)
  {
    if attrs.None? {
      return Fatal("convolution attributes of another class");
    }
    var conv := attrs.value;
    var layout, pw := conv.dataLayout, param.padWidth;
    if |layout| != |pw| {
      return Fatal("data layout and pad width extents differ");
    }
    // Any nonzero padding on a non-image axis cannot become conv padding.
    var unpadded := CheckNonImageUnpadded(layout, pw);
    if !unpadded {
      return Ok(None);
    }
    var padding := CollectImagePadding(layout, pw);
    if padding.Fatal? {
      return Fatal("pad width index out of range");
    }
    var merged := MakeConvAttrs(conv, padding.value);
    if merged.Fatal? {
      return Fatal(merged.reason);
    }
    return Ok(Some(merged.value));
  }

  /** The convolution alternative the matcher bound, first match wins. */
  function BoundConv(m: ConvPadMatch): (r: Option<ConvKind>)
    ensures r.None? <==> !m.bound1d && !m.bound2d && !m.bound3d
  {
    if m.bound1d then Some(Conv1D)
    else if m.bound2d then Some(Conv2D)
    else if m.bound3d then Some(Conv3D)
    else None
  }

  method SimplifyConvPadCallback(pre: Expr, post: Expr, m: ConvPadMatch) returns (r: Outcome<Expr>)
    // the matched conv and pad nodes must be calls, the pad one carrying pad attributes
    ensures !post.Call? || !m.pad.Call? || !m.pad.attrs.Pad? ==> r.Fatal?
    // only a zero-valued constant pad is folded
    ensures (post.Call? && m.pad.Call? && m.pad.attrs.Pad? &&
             !(m.pad.attrs.pad.padMode == "constant" && m.pad.attrs.pad.padValue == 0.0)) ==> r == Ok(post)
    ensures post.Call? && m.pad.Call? && m.pad.attrs.Pad? && BoundConv(m).None? ==> r == Ok(post)
    // a zero constant pad under a bound conv: a conv record of the wrong class
    // fails, a padded non-image axis declines, and otherwise the conv is
    // applied to (x, w) with the folded attributes, keeping its operator,
    // type arguments and span
    ensures post.Call? && m.pad.Call? && m.pad.attrs.Pad? &&
            m.pad.attrs.pad.padMode == "constant" && m.pad.attrs.pad.padValue == 0.0 &&
            BoundConv(m).Some? ==>
              if AsConvAttrs(post.attrs, BoundConv(m).value).None? then r.Fatal?
              else match FoldPadding(m.pad.attrs.pad, post.attrs.conv)
                   case Fatal(_) => r.Fatal?
                   case Ok(None) => r == Ok(post)
                   case Ok(Some(folded)) => r == Ok(Call(post.op, [m.x, m.w], Conv(folded), post.typeArgs, post.span))
  {
    if !post.Call? {
      return Fatal("matched convolution is not a call");
    }
    if !m.pad.Call? {
      return Fatal("matched pad is not a call");
    }
    if !m.pad.attrs.Pad? {
      return Fatal("matched pad has no pad attributes");
    }
    var param := m.pad.attrs.pad;
    if param.padMode == "constant" && param.padValue == 0.0 {
      var attrs: Outcome<Option<ConvAttrs>>;
      if m.bound1d {
        attrs := GetAttrs(param, AsConvAttrs(post.attrs, Conv1D));
      } else if m.bound2d {
        attrs := GetAttrs(param, AsConvAttrs(post.attrs, Conv2D));
      } else if m.bound3d {
        attrs := GetAttrs(param, AsConvAttrs(post.attrs, Conv3D));
      } else {
        return Ok(post);
      }
      if attrs.Fatal? {
        return Fatal(attrs.reason);
      }
      if attrs.value.None? {
        return Ok(post);
      }
      return Ok(Call(post.op, [m.x, m.w], Conv(attrs.value.value), post.typeArgs, post.span));
    }
    return Ok(post);
  }

  // Where each pad width ends up in the folded padding.

  lemma {:induction false} ImageColumnAt(layout: string, padWidth: seq<seq<int>>, j: nat, n: nat)
    requires |layout| == |padWidth| && n <= |padWidth|
    requires forall i :: 0 <= i < n && IsImageDim(layout[i]) ==> j < |padWidth[i]|
    ensures |ImageColumn(layout, padWidth, j, n)| == |ImageAxes(layout, n)|
    ensures forall t :: 0 <= t < |ImageAxes(layout, n)| ==>
              ImageColumn(layout, padWidth, j, n)[t] == padWidth[ImageAxes(layout, n)[t]][j]
  {
    if n > 0 {
      ImageColumnAt(layout, padWidth, j, n - 1);
    }
  }

  lemma {:induction false} ImagePaddingLength(layout: string, padWidth: seq<seq<int>>, cols: nat)
    requires |layout| == |padWidth|
    requires forall i :: 0 <= i < |padWidth| && IsImageDim(layout[i]) ==> cols <= |padWidth[i]|
    ensures |ImagePadding(layout, padWidth, cols)| == cols * |ImageAxes(layout, |padWidth|)|
  {
    if cols > 0 {
      var k := |ImageAxes(layout, |padWidth|)|;
      ImagePaddingLength(layout, padWidth, cols - 1);
      ImageColumnAt(layout, padWidth, cols - 1, |padWidth|);
      assert (cols - 1) * k + k == cols * k;
    }
  }

  /** Entry t of the last of `cols` columns sits after the earlier columns. */
  lemma ImagePaddingLastColumn(layout: string, padWidth: seq<seq<int>>, cols: nat, t: nat)
    requires |layout| == |padWidth|
    requires forall i :: 0 <= i < |padWidth| && IsImageDim(layout[i]) ==> cols <= |padWidth[i]|
    requires 0 < cols && t < |ImageAxes(layout, |padWidth|)|
    ensures (cols - 1) * |ImageAxes(layout, |padWidth|)| + t < |ImagePadding(layout, padWidth, cols)|
    ensures ImagePadding(layout, padWidth, cols)[(cols - 1) * |ImageAxes(layout, |padWidth|)| + t]
            == padWidth[ImageAxes(layout, |padWidth|)[t]][cols - 1]
  {
    var prefix := ImagePadding(layout, padWidth, cols - 1);
    var column := ImageColumn(layout, padWidth, cols - 1, |padWidth|);
    ImagePaddingLength(layout, padWidth, cols - 1);
    ImageColumnAt(layout, padWidth, cols - 1, |padWidth|);
    assert (prefix + column)[|prefix| + t] == column[t];
  }

  /** The folded padding lists, for each column j (before, then after), the
      pad widths of the image axes in layout order: entry j * k + t, where k
      is the number of image axes, is column j of the t-th image axis. */
  lemma {:induction false} ImagePaddingAt(layout: string, padWidth: seq<seq<int>>, cols: nat, j: nat, t: nat)
    requires |layout| == |padWidth|
    requires forall i :: 0 <= i < |padWidth| && IsImageDim(layout[i]) ==> cols <= |padWidth[i]|
    requires j < cols && t < |ImageAxes(layout, |padWidth|)|
    ensures j * |ImageAxes(layout, |padWidth|)| + t < |ImagePadding(layout, padWidth, cols)|
    ensures ImagePadding(layout, padWidth, cols)[j * |ImageAxes(layout, |padWidth|)| + t]
            == padWidth[ImageAxes(layout, |padWidth|)[t]][j]
  {
    if j == cols - 1 {
      ImagePaddingLastColumn(layout, padWidth, cols, t);
    } else {
      ImagePaddingAt(layout, padWidth, cols - 1, j, t);
      var prefix := ImagePadding(layout, padWidth, cols - 1);
      var column := ImageColumn(layout, padWidth, cols - 1, |padWidth|);
      var index := j * |ImageAxes(layout, |padWidth|)| + t;
      assert (prefix + column)[index] == prefix[index];
    }
  }

  /** Pad widths given as [before, after] pairs: the fold succeeds exactly
      when the non-image axes are unpadded and the conv has one padding entry
      per image axis and side; then entry t (before) and entry k + t (after)
      of the new padding add the t-th image axis's widths to the old ones. */
  lemma FoldPaddingPairs(param: PadAttrs, conv: ConvAttrs)
    requires |conv.dataLayout| == |param.padWidth| > 0
    requires forall i :: 0 <= i < |param.padWidth| ==> |param.padWidth[i]| == 2
    ensures var k := |ImageAxes(conv.dataLayout, |param.padWidth|)|;
            FoldPadding(param, conv).Ok? && FoldPadding(param, conv).value.Some? <==>
              NonImageUnpadded(conv.dataLayout, param.padWidth) && |conv.padding| == 2 * k
    ensures var axes := ImageAxes(conv.dataLayout, |param.padWidth|);
            FoldPadding(param, conv).Ok? && FoldPadding(param, conv).value.Some? ==>
              var padding := FoldPadding(param, conv).value.value.padding;
              && |padding| == 2 * |axes|
              && (forall t :: 0 <= t < |axes| ==>
                    padding[t] == param.padWidth[axes[t]][0] + conv.padding[t])
              && (forall t :: 0 <= t < |axes| ==>
                    padding[|axes| + t] == param.padWidth[axes[t]][1] + conv.padding[|axes| + t])
  {
    var layout, pw := conv.dataLayout, param.padWidth;
    var k := |ImageAxes(layout, |pw|)|;
    assert ImageRowsCover(layout, pw);
    ImagePaddingLength(layout, pw, 2);
    assert |ImagePadding(layout, pw, |pw[0]|)| == 2 * k;
    forall t | 0 <= t < k
      ensures ImagePadding(layout, pw, 2)[t] == pw[ImageAxes(layout, |pw|)[t]][0]
      ensures ImagePadding(layout, pw, 2)[k + t] == pw[ImageAxes(layout, |pw|)[t]][1]
    {
      ImagePaddingAt(layout, pw, 2, 0, t);
      ImagePaddingAt(layout, pw, 2, 1, t);
    }
  }

  /** In NCHW the collected padding is the H and W before-pads, then their after-pads. */
  lemma NchwImagePadding(pw: seq<seq<int>>, top: int, bottom: int, left: int, right: int)
    requires pw == [[0, 0], [0, 0], [top, bottom], [left, right]]
    ensures NonImageUnpadded("NCHW", pw) && ImageRowsCover("NCHW", pw)
    ensures ImagePadding("NCHW", pw, |pw[0]|) == [top, left, bottom, right]
  {
    assert ImageColumn("NCHW", pw, 0, 1) == [];
    assert ImageColumn("NCHW", pw, 0, 2) == [];
    assert ImageColumn("NCHW", pw, 0, 3) == [top];
    assert ImageColumn("NCHW", pw, 0, 4) == [top, left];
    assert ImageColumn("NCHW", pw, 1, 1) == [];
    assert ImageColumn("NCHW", pw, 1, 2) == [];
    assert ImageColumn("NCHW", pw, 1, 3) == [bottom];
    assert ImageColumn("NCHW", pw, 1, 4) == [bottom, right];
    assert ImagePadding("NCHW", pw, 1) == [top, left];
  }

  /** NCHW with pad widths [[0,0],[0,0],[top,bottom],[left,right]] adds
      [top, left, bottom, right] to the conv's four padding entries. */
  lemma FoldPaddingNchw(conv: ConvAttrs, top: int, bottom: int, left: int, right: int)
    requires conv.dataLayout == "NCHW" && |conv.padding| == 4
    ensures var c := conv.padding;
            FoldPadding(PadAttrs([[0, 0], [0, 0], [top, bottom], [left, right]], "constant", 0.0), conv)
            == Ok(Some(conv.(padding := [c[0] + top, c[1] + left, c[2] + bottom, c[3] + right])))
  {
    var pw := [[0, 0], [0, 0], [top, bottom], [left, right]];
    NchwImagePadding(pw, top, bottom, left, right);
    var c := conv.padding;
    var merged := MergeConvAttrs(conv, [top, left, bottom, right]);
    FourEntries(merged.value.padding, c[0] + top, c[1] + left, c[2] + bottom, c[3] + right);
  }

  lemma FourEntries(s: seq<int>, a: int, b: int, c: int, d: int)
    requires |s| == 4 && s[0] == a && s[1] == b && s[2] == c && s[3] == d
    ensures s == [a, b, c, d]
  {
  }

  /** Four pad-derived entries (before and after of H and W) cannot be
      merged into a convolution that carries any other number of padding
      entries, two say: the extent check fails. */
  lemma FoldPaddingExtentFails(conv: ConvAttrs, top: int, bottom: int, left: int, right: int)
    requires conv.dataLayout == "NCHW" && |conv.padding| != 4
    ensures FoldPadding(PadAttrs([[0, 0], [0, 0], [top, bottom], [left, right]], "constant", 0.0), conv).Fatal?
  {
    NchwImagePadding([[0, 0], [0, 0], [top, bottom], [left, right]], top, bottom, left, right);
  }

  /** Padding the channel axis of an NCHW input cannot be folded. */
  lemma FoldPaddingChannelDeclines(conv: ConvAttrs)
    requires conv.dataLayout == "NCHW"
    ensures FoldPadding(PadAttrs([[0, 0], [1, 1], [1, 1], [1, 1]], "constant", 0.0), conv) == Ok(None)
  {
    var pw := [[0, 0], [1, 1], [1, 1], [1, 1]];
    assert !IsImageDim(conv.dataLayout[1]) && pw[1][0] != 0;
  }

  // ---------------------------------------------------------------------
  // Full/ones/zeros elementwise: op(full, x) ~> op(scalar, x) when no broadcasting happens

  /** What the matcher bound for `op(filled, x) || op(x, filled)`: `x`, the
      constant fill value if one was bound, and which producer alternative
      matched. */
  datatype FullElementwiseMatch = FullElementwiseMatch(
    x: Expr, value: Option<Expr>, boundFull: bool, boundOnes: bool, boundZeros: bool)

  /** The scalar that replaces the filled operand: the bound fill value for
      full/full_like (which must be a constant scalar), 1 for ones, 0 for
      zeros, in the result dtype. */
  function FillScalar(m: FullElementwiseMatch, dtype: DType): (r: Outcome<Expr>)
    ensures r.Ok? ==> IsConstScalar(r.value)
    ensures m.boundFull ==> (r.Ok? <==> m.value.Some? && IsConstScalar(m.value.value))
    ensures m.boundFull && r.Ok? ==> r.value == m.value.value
    ensures !m.boundFull && m.boundOnes ==> r == Ok(MakeConstantScalar(dtype, 1))
    ensures !m.boundFull && !m.boundOnes && m.boundZeros ==> r == Ok(MakeConstantScalar(dtype, 0))
    ensures !m.boundFull && !m.boundOnes && !m.boundZeros ==> r.Fatal?
  {
    if m.boundFull then
      if m.value.None? then Fatal("no fill value bound")
      else if !IsConstScalar(m.value.value) then Fatal("fill value is not a constant scalar")
      else Ok(m.value.value)
    else if m.boundOnes then Ok(MakeConstantScalar(dtype, 1))
    else if m.boundZeros then Ok(MakeConstantScalar(dtype, 0))
    else Fatal("no full op found while matching full + elementwise")
  }

  /** The position of `x` among the operands: 1 when the filled operand is on the left. */
  function XSide(post: Expr, m: FullElementwiseMatch): nat
    requires post.Call? && |post.args| >= 2
  {
    if post.args[1] == m.x then 1 else 0
  }

  /** The callback reads a tensor-typed call and a two-operand post node. */
  predicate WellShaped(pre: Expr, post: Expr, typeOf: Expr -> Type)
  {
    pre.Call? && typeOf(pre).TensorType? && post.Call? && |post.args| >= 2
  }

  /** No broadcasting happens: the operand `x` already has the result type. */
  predicate NoBroadcast(pre: Expr, post: Expr, m: FullElementwiseMatch, typeOf: Expr -> Type)
    requires WellShaped(pre, post, typeOf)
  {
    XSide(post, m) < |pre.args| && typeOf(pre.args[XSide(post, m)]) == typeOf(pre)
  }

  function FullElementwiseCallback(pre: Expr, post: Expr, m: FullElementwiseMatch, typeOf: Expr -> Type)
    : (r: Outcome<Expr>)
    ensures !WellShaped(pre, post, typeOf) ==> r.Fatal?
    ensures (WellShaped(pre, post, typeOf) && XSide(post, m) < |pre.args| &&
             !NoBroadcast(pre, post, m, typeOf)) ==> r == Ok(post)
    ensures WellShaped(pre, post, typeOf) && NoBroadcast(pre, post, m, typeOf) ==>
              (r.Ok? <==> FillScalar(m, typeOf(pre).dtype).Ok?)
    ensures WellShaped(pre, post, typeOf) && NoBroadcast(pre, post, m, typeOf) && r.Ok? ==>
              var side := XSide(post, m);
              && r.value.Call? && r.value.op == pre.op && r.value.attrs == pre.attrs
              && r.value.typeArgs == pre.typeArgs && r.value.span == pre.span
              && |r.value.args| == 2 && r.value.args[side] == m.x
              && r.value.args[1 - side] == FillScalar(m, typeOf(pre).dtype).value
              && IsConstScalar(r.value.args[1 - side])
  {
    if !pre.Call? then Fatal("pre is not a call")
    else if !typeOf(pre).TensorType? then Fatal("result type is not a tensor type")
    else if !post.Call? || |post.args| < 2 then Fatal("post has fewer than two operands")
    else
      var isLeft := post.args[1] == m.x;
      var side := if isLeft then 1 else 0;
      if side >= |pre.args| then Fatal("operand index out of range")
      else if typeOf(pre.args[side]) != typeOf(pre) then Ok(post)
      else
        match FillScalar(m, typeOf(pre).dtype)
        case Fatal(reason) => Fatal(reason)
        case Ok(value) =>
          if isLeft then Ok(Call(pre.op, [value, m.x], pre.attrs, pre.typeArgs, pre.span))
          else Ok(Call(pre.op, [m.x, value], pre.attrs, pre.typeArgs, pre.span))
  }

  /** The shapes [4, 4] and [1, 4] of float32 tensors. */
  const Float4x4: Type := TensorType("float32", [Known(4), Known(4)])
  const Float1x4: Type := TensorType("float32", [Known(1), Known(4)])

  /** ones_like(x) + x with x of the result type: the ones operand becomes
      the scalar 1 of the result dtype. */
  lemma FullElementwiseOnesFires(x: Expr, typeOf: Expr -> Type)
    requires typeOf(Call("add", [Call("ones_like", [x], NoAttrs, [], NoSpan), x], NoAttrs, [], NoSpan)) == Float4x4
    requires typeOf(x) == Float4x4
    ensures var pre := Call("add", [Call("ones_like", [x], NoAttrs, [], NoSpan), x], NoAttrs, [], NoSpan);
            FullElementwiseCallback(pre, pre, FullElementwiseMatch(x, None, false, true, false), typeOf)
            == Ok(Call("add", [MakeConstantScalar("float32", 1), x], NoAttrs, [], NoSpan))
  {
  }

  /** zeros(...) + x where x is broadcast to the result shape: left as it is. */
  lemma FullElementwiseBroadcastDeclines(x: Expr, typeOf: Expr -> Type)
    requires typeOf(Call("add", [Call("zeros", [], NoAttrs, [], NoSpan), x], NoAttrs, [], NoSpan)) == Float4x4
    requires typeOf(x) == Float1x4
    ensures var pre := Call("add", [Call("zeros", [], NoAttrs, [], NoSpan), x], NoAttrs, [], NoSpan);
            FullElementwiseCallback(pre, pre, FullElementwiseMatch(x, None, false, false, true), typeOf) == Ok(pre)
  {
    assert Float1x4 != Float4x4 by { assert Float1x4.shape[0] != Float4x4.shape[0]; }
  }

  /** full(5, [1, 1]) * x with x of the result type: rewritten to 5 * x even
      though the full operand alone has a smaller shape; only the shape of x
      is compared with the result. */
  lemma FullElementwiseSmallFullFires(x: Expr, typeOf: Expr -> Type)
    requires var five := MakeConstantScalar("float32", 5);
             typeOf(Call("multiply", [Call("full", [five], NoAttrs, [], NoSpan), x], NoAttrs, [], NoSpan)) == Float4x4
    requires typeOf(x) == Float4x4
    ensures var five := MakeConstantScalar("float32", 5);
            var pre := Call("multiply", [Call("full", [five], NoAttrs, [], NoSpan), x], NoAttrs, [], NoSpan);
            FullElementwiseCallback(pre, pre, FullElementwiseMatch(x, Some(five), true, false, false), typeOf)
            == Ok(Call("multiply", [five, x], NoAttrs, [], NoSpan))
  {
  }

  // ---------------------------------------------------------------------
  // The simplifier: the rules, in the order they are tried

  datatype RuleKind = ReshapeRule | FullElementwiseRule | ConvPadRule

  /** A registered rule: its pattern, which callback runs, and whether the
      node must carry an inferred type before it is offered to the callback. */
  datatype PatternCallback = PatternCallback(pattern: Pattern, rule: RuleKind, requireType: bool)

  function RulePattern(rule: RuleKind): Pattern
  {
    match rule
    case ReshapeRule => ReshapePattern()
    case FullElementwiseRule => FullElementwisePattern()
    case ConvPadRule => ConvPadPattern()
  }

  class ExprSimplifier {
    var callbacks: seq<PatternCallback>

    constructor ()
      ensures callbacks == [PatternCallback(ReshapePattern(), ReshapeRule, true),
                            PatternCallback(FullElementwisePattern(), FullElementwiseRule, true),
                            PatternCallback(ConvPadPattern(), ConvPadRule, true)]
    {
      callbacks := [];
      new;
      CreateCallback(ReshapeRule);
      CreateCallback(FullElementwiseRule);
      CreateCallback(ConvPadRule);
    }

    method CreateCallback(rule: RuleKind)
      modifies this
      ensures callbacks == old(callbacks) + [PatternCallback(RulePattern(rule), rule, true)]
    {
      callbacks := callbacks + [PatternCallback(RulePattern(rule), rule, true)];
    }
  }
}
