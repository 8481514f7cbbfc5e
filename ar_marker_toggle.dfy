/** An AR marker the user can change with the mouse
    (LevelManagement/ArMarkerToggle.cs): a click on it selects it; while
    selected a left click shows the next pattern, a right click the next
    outline colour, and a click elsewhere deselects it. Each index setter
    also sets the matching renderer (the pattern material, the outline
    colour, the padding colour), which the functions below give. The mouse
    buttons and the raycast are inputs: `hitsThis` says whether the ray
    under the mouse hits this marker. */
module ArMarkers {
  import opened ArCycling
  import UnityColors

  /** The padding colour of a selected marker. */
  const SelectedColor: UnityColors.Color := UnityColors.Rgb(0.75, 0.75, 0.75)

  class ArMarkerToggle {
    /** patterns.Length. */
    const patternCount: nat
    const initialPattern: int
    const initialColor: int
    var patternIndex: int
    var colorIndex: int
    var selected: bool

    /** Both indices name an entry of their table. */
    predicate Valid()
      reads this
    {
      0 <= patternIndex < patternCount && 0 <= colorIndex < |MarkerColors|
    }

    /** The colour of the outline renderer. */
    function OutlineColor(): UnityColors.Color
      requires Valid()
      reads this
    {
      MarkerColors[colorIndex]
    }

    /** The colour of the padding renderer. */
    function PaddingColor(): (c: UnityColors.Color)
      reads this
      ensures c == SelectedColor <==> selected
    {
      if selected then SelectedColor else UnityColors.White
    }

    /** The editor's configuration, with the field initialisers. */
    constructor (patternCount: nat, initialPattern: int, initialColor: int)
      ensures this.patternCount == patternCount && this.initialPattern == initialPattern
      ensures this.initialColor == initialColor
      ensures patternIndex == 0 && colorIndex == 0 && !selected
    {
      this.patternCount := patternCount;
      this.initialPattern := initialPattern;
      this.initialColor := initialColor;
      patternIndex := 0;
      colorIndex := 0;
      selected := false;
    }

    /** Start: the initial pattern and colour, unselected. A setter given
        an index outside its table stores it and then throws on the lookup,
        skipping the rest. */
    method Start() returns (thrown: bool)
      modifies this`patternIndex, this`colorIndex, this`selected
      ensures thrown <==> !(0 <= initialPattern < patternCount && 0 <= initialColor < |MarkerColors|)
      ensures patternIndex == initialPattern
      ensures colorIndex == if 0 <= initialPattern < patternCount then initialColor else old(colorIndex)
      ensures !thrown ==> Valid() && !selected
      ensures thrown ==> selected == old(selected)
    {
      patternIndex := initialPattern;
      if !(0 <= patternIndex < patternCount) {
        return true;
      }
      colorIndex := initialColor;
      if !(0 <= colorIndex < |MarkerColors|) {
        return true;
      }
      selected := false;
      return false;
    }

    method Update(leftMouse: bool, rightMouse: bool, hitsThis: bool)
      requires Valid()
      modifies this`patternIndex, this`colorIndex, this`selected
      ensures Valid()
      // A frame without a click changes nothing.
      ensures !leftMouse && !rightMouse ==>
                patternIndex == old(patternIndex) && colorIndex == old(colorIndex) && selected == old(selected)
      // Unselected: a click on the marker selects it, and nothing else changes.
      ensures !old(selected) ==>
                selected == ((leftMouse || rightMouse) && hitsThis) &&
                patternIndex == old(patternIndex) && colorIndex == old(colorIndex)
      // Selected, clicked on: the clicked buttons step their index on.
      ensures old(selected) && (leftMouse || rightMouse) && hitsThis ==>
                selected &&
                patternIndex == (if leftMouse then Succ(old(patternIndex), patternCount) else old(patternIndex)) &&
                colorIndex == (if rightMouse then Succ(old(colorIndex), |MarkerColors|) else old(colorIndex))
      // Selected, clicked elsewhere: deselected, both indices kept.
      ensures old(selected) && (leftMouse || rightMouse) && !hitsThis ==>
                !selected && patternIndex == old(patternIndex) && colorIndex == old(colorIndex)
    {
      var tagClicked := (leftMouse || rightMouse) && hitsThis;
      if selected {
        if tagClicked {
          if leftMouse {
            patternIndex := (patternIndex + 1) % patternCount;
          }
          if rightMouse {
            colorIndex := (colorIndex + 1) % |MarkerColors|;
          }
        } else if leftMouse || rightMouse {
          selected := false;
        }
      } else if tagClicked {
        selected := true;
      }
    }
  }
}
