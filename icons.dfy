/** The values a QIcon lookup produces. Qt's pixmaps and painters are not modelled: a rendered icon
    records which file it was drawn from and with which settings. */
module Icons {
  import opened Wrappers

  /** A Qt colour. */
  datatype Color = Rgba(red: int, green: int, blue: int, alpha: int)

  /** The settings only the SVG renderer uses: the view box and the rewritten `stroke-width`. */
  datatype SvgSettings = SvgSettings(viewBoxSize: int, strokeWidth: int)

  /** An empty `QIcon()` or an icon painted from an SVG file. `svg` is `None` when the file was
      loaded as a plain pixmap because no QtSvg module is available. */
  datatype Icon =
    | Empty
    | Rendered(source: string, size: int, svg: Option<SvgSettings>, opacity: real, color: Color)

  /** The drawing arguments of `_get_qicon`; `color` is `None` for the palette's text colour. */
  datatype Style = Style(color: Option<Color>, size: int, viewBoxSize: int, strokeWidth: int, opacity: real)

  /** The default arguments: no colour, size 24, view box 24, stroke width 2, opacity 1.0. */
  const DefaultStyle: Style := Style(None, 24, 24, 2, 1.0)

  /** The colour an icon is painted with: the requested one, else the application's text colour. */
  function PaintColor(style: Style, appTextColor: Color): (r: Color)
    ensures style.color.Some? ==> r == style.color.value
    ensures style.color.None? ==> r == appTextColor
  {
    if style.color.None? then appTextColor else style.color.value
  }

  /** Paints the icon file at `path` in `color`: through the SVG renderer when `svgBackend` holds,
      otherwise as a pixmap scaled to `style.size`. Either way the opacity is applied. The colour
      field of `style` is not used; the caller resolves it. */
  function Render(path: string, color: Color, style: Style, svgBackend: bool): (r: Icon)
    ensures r.Rendered? && r.source == path && r.color == color
  {
    Rendered(path, style.size, if svgBackend then Some(SvgSettings(style.viewBoxSize, style.strokeWidth)) else None,
             style.opacity, color)
  }

  /** Without QtSvg the view box and the stroke width have no effect on the icon. */
  lemma RasterIgnoresSvgSettings(path: string, color: Color, s: Style, t: Style)
    requires s.size == t.size && s.opacity == t.opacity
    ensures Render(path, color, s, false) == Render(path, color, t, false)
  {
  }

  /** Two renderings of one file are the same icon exactly when every setting that is used agrees. */
  lemma RenderInjective(path: string, c: Color, d: Color, s: Style, t: Style, svgBackend: bool)
    ensures Render(path, c, s, svgBackend) == Render(path, d, t, svgBackend) <==>
      && c == d && s.size == t.size && s.opacity == t.opacity
      && (svgBackend ==> s.viewBoxSize == t.viewBoxSize && s.strokeWidth == t.strokeWidth)
  {
  }
}
