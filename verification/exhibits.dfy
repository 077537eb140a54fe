/**
  The scene as the visitor controller sees it. Engine node lookups
  (`GetParent`, `HasMeta`, `GetMeta`, `GetNodeOrNull`) become lookups in
  these maps.
 */
module Exhibits {
  import opened Outcomes

  /** Handle of a scene node the look-raycast can report. */
  datatype Node = Node(id: nat)

  /** Handle of a camera node. */
  datatype Camera = Camera(id: nat)

  /** Metadata on an exhibit's parent node: the `about` dictionary and the `cvc` camera path. */
  datatype Meta = Meta(about: Option<map<string, string>>, cvc: Option<string>)

  /**
    parentMeta: metadata of each node's parent; a node that is not a key has
                a parent without any metadata.
    cameras:    the camera a `cvc` path names, keyed by the node whose
                parent carries the path, since the path is read relative
                to that parent.
    ownCamera:  the visitor's own first-person camera (`%camera`).
    language:   the language code used to pick the exhibit texts.
   */
  datatype Scene = Scene(
    parentMeta: map<Node, Meta>,
    cameras: map<(Node, string), Camera>,
    ownCamera: Camera,
    language: string)

  /** Key of an exhibit's name in the `about` dictionary. */
  function NameKey(language: string): string
  {
    "name_" + language
  }

  /** Key of an exhibit's description in the `about` dictionary. */
  function DescriptionKey(language: string): string
  {
    "description_" + language
  }

  /** The `about` dictionary on n's parent, if the parent carries one. */
  function About(scene: Scene, n: Node): Option<map<string, string>>
  {
    if n in scene.parentMeta then scene.parentMeta[n].about else None
  }

  /** The camera that n's parent names through `cvc`, if that path resolves. */
  function ExhibitCamera(scene: Scene, n: Node): Option<Camera>
  {
    if n in scene.parentMeta && scene.parentMeta[n].cvc.Some? && (n, scene.parentMeta[n].cvc.value) in scene.cameras
    then Some(scene.cameras[(n, scene.parentMeta[n].cvc.value)])
    else None
  }
}
