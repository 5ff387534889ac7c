/** The records the garden route works with: the flat joined row the data
    store returns, and the nested garden, plot and plant objects the route
    builds from those rows. */
module Entities {
  import opened Wrappers

  /** A JSON scalar as it comes out of the data store and goes into the
      response. The assembler only copies these, never inspects them. */
  datatype Value = Undefined | Null | Bool(b: bool) | Num(n: int) | Text(s: string)

  /** One row of the garden join: garden-level fields repeated on every row,
      plot-level fields repeated for every plant of the plot, plant-level
      fields varying. `plotPlantId` is `None` when the join found no plant
      for the plot (`null` in the row). */
  datatype Row = Row(
    gardenId: Value,
    layout: Value,
    plotPlantId: Option<nat>,
    plotId: nat,
    plotNumber: Value,
    shadeLevel: Value,
    plotType: Value,
    size: Value,
    averageWind: Value,
    plotName: Value,
    plantName: Value,
    difficulty: Value,
    wateringFrequency: Value,
    datePlanted: Value,
    lastWatered: Value
  )

  datatype Plant = Plant(
    name: Value,
    difficulty: Value,
    wateringFrequency: Value,
    datePlanted: Value,
    lastWatered: Value
  )

  datatype Plot = Plot(
    plotNumber: Value,
    shadeLevel: Value,
    plotType: Value,
    size: Value,
    averageWind: Value,
    name: Value,
    plants: seq<Plant>
  )

  datatype Garden = Garden(id: Value, layout: Value, plots: seq<Plot>)
}
