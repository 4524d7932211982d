// The scheduler's settings. Durations are counted in nanoseconds.
module Config {
  const SECOND := 1_000_000_000
  const MILLISECOND := 1_000_000

  const BATCH := 15
  const BATCH_LATENCY := 70 * MILLISECOND
  const INIT_MAX_WEIGHT := 3

  const TICK_INTERVAL := 1000 * MILLISECOND
  const ISSUE_LATENCY := 6000 * MILLISECOND

  const RESOURCE_NAME := "xilinx.com/fpga-xilinx_u200_xdma_201830_1-1542252769"
  const CLIENT_CONTAINER_NAME := "go-client-fpga"
  const CLIENT_LISTEN_PORT_NAME := "fpga-listen"
  const CLIENT_LISTEN_PORT_ENV := "FPGA_LISTEN_PORT"
  const NODE1 := "u200-1"
  const NODE2 := "u200-2"
  const IP1 := "192.168.202.94"
  const IP2 := "192.168.202.95"
  const LISTEN_PORT_BEGIN := 9898
  const LISTEN_PORT_END := 10100

  /** The longest batch the FPGA client accepts. */
  const CLIENT_MAX_BATCH := 16
}
