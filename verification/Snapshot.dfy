/** The parts of a server snapshot that the dependency graph and the drift report read. */
module Snapshot {
  import opened Sequences

  datatype PortMapping = PortMapping(hostPort: int, containerPort: int, protocol: string)

  datatype ContainerInfo = ContainerInfo(
    name: string, image: string, status: string, state: string, ports: seq<PortMapping>, volumes: seq<string>,
    networks: seq<string>, labels: map<string, string>, envVarNames: seq<string>)

  datatype SystemService = SystemService(
    name: string, description: string, loadState: string, activeState: string, subState: string, unitType: string,
    dependsOn: seq<string>)

  datatype DatabaseInfo = DatabaseInfo(dbType: string, port: int)

  datatype NginxVHost = NginxVHost(serverName: string, proxyPass: string)

  datatype UpstreamConfig = UpstreamConfig(name: string, addresses: seq<string>)

  datatype NginxInfo = NginxInfo(vhosts: seq<NginxVHost>, upstreams: seq<UpstreamConfig>)

  datatype MessageQueueInfo = MessageQueueInfo(port: int)

  datatype DiskPartition = DiskPartition(
    filesystem: string, mountPoint: string, sizeGB: real, usedGB: real, availGB: real, usePercent: real)

  datatype OpenPort = OpenPort(port: int, protocol: string, address: string, process: string, pid: int)

  datatype OSInfo = OSInfo(
    distro: string, kernel: string, architecture: string, timezone: string, uptime: int, hostname: string,
    virtualization: string)

  datatype HardwareInfo = HardwareInfo(
    cpuModel: string, cpuCores: int, ramTotalMB: int, ramUsedMB: int, diskTotalGB: real, diskUsedGB: real)

  datatype ServerSnapshot = ServerSnapshot(
    os: OSInfo, hardware: HardwareInfo, docker: Option<seq<ContainerInfo>>, users: seq<string>,
    messageQueues: seq<MessageQueueInfo>, services: seq<SystemService>, packages: seq<string>,
    databases: seq<DatabaseInfo>, nginx: Option<NginxInfo>, diskUsage: seq<DiskPartition>, networkPorts: seq<OpenPort>)
}
