# The whole project: dafny verify dfyconfig.toml
includes = ["**/*.dfy"]
