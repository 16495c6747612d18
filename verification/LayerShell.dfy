module LayerShell {
  // The layers of the layer-shell protocol, from the bottom up. Windows are between the bottom and
  // the top layer.
  datatype Layer = Background | Bottom | Top | Overlay
}
