/** Market data shared by the pipeline, the indicators and the engines. */
module Market {
  datatype Tick = Tick(timestamp: int, bid: real, ask: real, volume: real, last: real)
}
