/** The static data of the editor: the module catalogue and the finish palette. */
module Catalog {
  import opened Types

  /** The catalogue offered in the editor's side bar, in display order. */
  const ModuleLibrary: seq<LibraryItem> := [
    LibraryItem("Balcão Base 2P", "Cozinha", 1250.0, "border-bottom", 800.0, 720.0, 580.0),
    LibraryItem("Aéreo Lux Basculante", "Cozinha", 980.0, "border-top", 800.0, 400.0, 350.0),
    LibraryItem("Painel Ripado SD", "Sala", 1800.0, "align-justify", 1200.0, 2600.0, 45.0),
    LibraryItem("Torre Fornos 2P", "Cozinha", 2450.0, "columns", 600.0, 2200.0, 580.0),
    LibraryItem("Sofá Living SD", "Decoração", 3500.0, "couch", 2200.0, 450.0, 900.0),
    LibraryItem("Ilha Gourmet", "Cozinha", 4200.0, "square", 1800.0, 900.0, 900.0)
  ]

  /** The finish swatches of the inspector, each with the colour it is drawn in. */
  const Finishes: seq<Finish> := [
    Finish("Branco Tx", "#ffffff"),
    Finish("Louredo Matt", "#d4af37"),
    Finish("Grafite Silk", "#444444"),
    Finish("Carvalho SD", "#a67b5b"),
    Finish("Preto Absoluto", "#1a1a1a")
  ]

  /** The finish every new module starts with. */
  const DefaultFinish: string := "Branco Tx"
}
