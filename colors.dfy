/** Unity's Color values as the level scripts use them: RGBA with each
    channel in [0, 1]; `new Color(r, g, b)` is opaque. */
module UnityColors {
  datatype Color = Color(r: real, g: real, b: real, a: real)

  function Rgb(r: real, g: real, b: real): Color
  {
    Color(r, g, b, 1.0)
  }

  const White: Color := Rgb(1.0, 1.0, 1.0)
  const Black: Color := Rgb(0.0, 0.0, 0.0)
  const Red: Color := Rgb(1.0, 0.0, 0.0)
  const Green: Color := Rgb(0.0, 1.0, 0.0)
  /** Unity's Color.yellow, (1, 235/255, 4/255). */
  const Yellow: Color := Rgb(1.0, 235.0 / 255.0, 4.0 / 255.0)
}
