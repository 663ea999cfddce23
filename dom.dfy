/** The slice of the browser DOM the storefront scripts touch: an element is a
    record of its class list, its attributes, its inline style, its text content
    and its `disabled` property. Node identity is by position in the sequences
    the page classes of the other modules hold. */
module Dom {

  datatype Option<+T> = None | Some(value: T)

  datatype Element = Element(
    classes: set<string>,
    attrs: map<string, string>,
    style: map<string, string>,
    text: string,
    disabled: bool)

  /** JavaScript truthiness of a string that may be null or undefined: the empty
      string is falsy like null. */
  predicate Truthy(a: Option<string>) {
    a.Some? && a.value != ""
  }

  /** A boolean converted to a string, as `setAttribute` or a template
      writes it. */
  function BoolText(b: bool): string {
    if b then "true" else "false"
  }

  /** `classList.add(c)` */
  function AddClass(e: Element, c: string): Element {
    e.(classes := e.classes + {c})
  }

  /** `classList.remove(c)` */
  function RemoveClass(e: Element, c: string): Element {
    e.(classes := e.classes - {c})
  }

  /** `classList.toggle(c)` */
  function ToggleClass(e: Element, c: string): Element {
    if c in e.classes then RemoveClass(e, c) else AddClass(e, c)
  }

  predicate HasAttribute(e: Element, name: string) {
    name in e.attrs
  }

  /** `getAttribute(name)`: None stands for null. */
  function GetAttribute(e: Element, name: string): Option<string> {
    if name in e.attrs then Some(e.attrs[name]) else None
  }

  /** `setAttribute(name, v)` */
  function SetAttribute(e: Element, name: string, v: string): Element {
    e.(attrs := e.attrs[name := v])
  }

  /** `removeAttribute(name)` */
  function RemoveAttribute(e: Element, name: string): Element {
    e.(attrs := e.attrs - {name})
  }

  /** An assignment `style[prop] = v`. */
  function SetStyle(e: Element, prop: string, v: string): Element {
    e.(style := e.style[prop := v])
  }
}
