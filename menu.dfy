/**
 * The sidebar menu state of the `useMenuState` hook: whether the menu is expanded, the
 * active item and the hovered item. `null` is `None`. The viewport width that
 * `handleItemClick` reads from the window is a parameter.
 */
module Menu {
  import opened Wrappers

  const DefaultActiveItemId := "home"
  /** Viewports up to this width collapse the menu when an item is chosen. */
  const CollapseMaxWidth := 1024

  datatype MenuItem = MenuItem(
    id: string,
    labelText: string,
    icon: string,
    path: Option<string>,
    isActive: Option<bool>)

  datatype MenuState = MenuState(
    isExpanded: bool,
    activeItemId: Option<string>,
    hoveredItemId: Option<string>)

  class MenuController {
    var menuState: MenuState

    /** The first render: collapsed, the given item active, nothing hovered. */
    constructor(initialActiveItemId: string)
      ensures menuState == MenuState(false, Some(initialActiveItemId), None)
    {
      menuState := MenuState(false, Some(initialActiveItemId), None);
    }

    method SetExpanded(isExpanded: bool)
      modifies this
      ensures menuState == old(menuState).(isExpanded := isExpanded)
    {
      menuState := menuState.(isExpanded := isExpanded);
    }

    method SetActiveItem(itemId: Option<string>)
      modifies this
      ensures menuState == old(menuState).(activeItemId := itemId)
    {
      menuState := menuState.(activeItemId := itemId);
    }

    method SetHoveredItem(itemId: Option<string>)
      modifies this
      ensures menuState == old(menuState).(hoveredItemId := itemId)
    {
      menuState := menuState.(hoveredItemId := itemId);
    }

    /** Choosing an item activates it, and collapses the menu on a narrow viewport. */
    method HandleItemClick(item: MenuItem, viewportWidth: int)
      modifies this
      ensures menuState.activeItemId == Some(item.id)
      ensures menuState.hoveredItemId == old(menuState.hoveredItemId)
      ensures viewportWidth <= CollapseMaxWidth ==> !menuState.isExpanded
      ensures viewportWidth > CollapseMaxWidth ==> menuState.isExpanded == old(menuState.isExpanded)
    {
      SetActiveItem(Some(item.id));
      if viewportWidth <= CollapseMaxWidth {
        SetExpanded(false);
      }
    }

    method HandleItemHover(itemId: Option<string>)
      modifies this
      ensures menuState == old(menuState).(hoveredItemId := itemId)
    {
      SetHoveredItem(itemId);
    }

    method HandleMenuHover(isHovered: bool)
      modifies this
      ensures menuState == old(menuState).(isExpanded := isHovered)
    {
      SetExpanded(isHovered);
    }
  }

  /**
   * Hovering opens the menu and choosing an item on a tablet-wide viewport closes it
   * again with that item active.
   */
  method HoverThenClick(item: MenuItem) returns (state: MenuState)
    ensures state == MenuState(false, Some(item.id), None)
  {
    var m := new MenuController(DefaultActiveItemId);
    m.HandleMenuHover(true);
    m.HandleItemClick(item, 800);
    state := m.menuState;
  }

  /** On a wide viewport the menu stays open after a choice. */
  method ClickOnDesktop(item: MenuItem) returns (state: MenuState)
    ensures state == MenuState(true, Some(item.id), None)
  {
    var m := new MenuController(DefaultActiveItemId);
    m.HandleMenuHover(true);
    m.HandleItemClick(item, 1280);
    state := m.menuState;
  }
}
