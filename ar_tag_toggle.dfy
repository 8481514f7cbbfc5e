/** The older AR tag script (LevelManagement/ArTagToggle.cs): a left click
    selects the tag when the ray hits it and deselects it otherwise; while
    selected, a right click advances the outline colour counter, and the
    left and right Control keys show the previous and the next tag. Mouse,
    keys and the raycast are inputs. */
module ArTags {
  import opened Wire
  import opened ArCycling
  import UnityColors

  class ArTagToggle {
    /** tags.Length. */
    const tagCount: nat
    var tagIndex: int
    /** The right clicks counted; the colour shown is this modulo 4. */
    var colorIndex: nat
    var selected: bool
    /** The outline's colour, `None` while the script has not set it. */
    var outline: Option<UnityColors.Color>

    predicate Valid()
      reads this
    {
      0 <= tagIndex < tagCount
    }

    /** The editor's tag index, with the field initialisers. */
    constructor (tagCount: nat, tagIndex: int)
      ensures this.tagCount == tagCount && this.tagIndex == tagIndex
      ensures colorIndex == 0 && !selected && outline.None?
    {
      this.tagCount := tagCount;
      this.tagIndex := tagIndex;
      colorIndex := 0;
      selected := false;
      outline := None;
    }

    /** Start: the tag's material lookup throws for an index outside the
        table, and nothing changes. */
    method Start() returns (thrown: bool)
      ensures thrown <==> !Valid()
    {
      thrown := !(0 <= tagIndex < tagCount);
    }

    method Update(leftMouse: bool, rightMouse: bool, leftControl: bool, rightControl: bool, hitsThis: bool)
      requires Valid()
      modifies this`tagIndex, this`colorIndex, this`selected, this`outline
      ensures Valid()
      ensures selected == if leftMouse then hitsThis else old(selected)
      // While unselected only the selection changes.
      ensures !selected ==>
                tagIndex == old(tagIndex) && colorIndex == old(colorIndex) && outline == old(outline)
      ensures selected && rightMouse ==>
                colorIndex == old(colorIndex) + 1 && outline == Some(MarkerColors[colorIndex % |MarkerColors|])
      ensures !(selected && rightMouse) ==> colorIndex == old(colorIndex) && outline == old(outline)
      ensures selected ==>
                var back := if leftControl then Pred(old(tagIndex), tagCount) else old(tagIndex);
                tagIndex == if rightControl then Succ(back, tagCount) else back
      // Both Control keys in one frame come back to the same tag.
      ensures selected && leftControl && rightControl ==> tagIndex == old(tagIndex)
    {
      if leftMouse {
        selected := hitsThis;
      }
      if selected {
        if rightMouse {
          colorIndex := colorIndex + 1;
          outline := Some(MarkerColors[colorIndex % |MarkerColors|]);
        }
        if leftControl {
          tagIndex := tagIndex + tagCount - 1;
          tagIndex := tagIndex % tagCount;
        }
        if rightControl {
          SuccPredInverse(old(tagIndex), tagCount);
          tagIndex := tagIndex + 1;
          tagIndex := tagIndex % tagCount;
        }
      }
    }
  }
}
